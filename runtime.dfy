/**
 * The pieces of the JavaScript runtime that the editing engine relies on,
 * written out explicitly: the character classes its regular expressions use,
 * String.prototype.trim, the relative-index rule of Array.prototype.splice and
 * Array.prototype.slice, and String.prototype.indexOf / lastIndexOf for a
 * one-character search string.
 */
module Runtime {

  datatype Option<T> = None | Some(value: T)

  function Min(a: int, b: int): int { if a <= b then a else b }

  function Max(a: int, b: int): int { if a >= b then a else b }

  /** `\w` in a regular expression without the `u` flag: [A-Za-z0-9_]. `\W` is its complement. */
  predicate IsWordChar(c: char) {
    ('a' <= c <= 'z') || ('A' <= c <= 'Z') || ('0' <= c <= '9') || c == '_'
  }

  /** `\d`: an ASCII decimal digit. */
  predicate IsDigit(c: char) { '0' <= c <= '9' }

  /** `[a-z]`: an ASCII lower-case letter. */
  predicate IsLower(c: char) { 'a' <= c <= 'z' }

  /**
   * The characters String.prototype.trim removes: ECMAScript WhiteSpace (tab,
   * vertical tab, form feed, space, no-break space, zero width no-break space
   * and the Unicode space separators) and LineTerminator (line feed, carriage
   * return, line separator, paragraph separator).
   */
  predicate IsTrimmable(c: char) {
    c == '\t' || c == '\n' || c == '\U{000B}' || c == '\U{000C}' || c == '\r' || c == ' '
    || c == '\U{00A0}' || c == '\U{1680}' || ('\U{2000}' <= c <= '\U{200A}')
    || c == '\U{2028}' || c == '\U{2029}' || c == '\U{202F}' || c == '\U{205F}'
    || c == '\U{3000}' || c == '\U{FEFF}'
  }

  predicate AllTrimmable(s: string) {
    forall k :: 0 <= k < |s| ==> IsTrimmable(s[k])
  }

  /** `s` without its leading white space. */
  function TrimStart(s: string): (r: string)
    ensures |r| <= |s| && r == s[|s| - |r|..]
    ensures forall k :: 0 <= k < |s| - |r| ==> IsTrimmable(s[k])
    ensures r == [] || !IsTrimmable(r[0])
    decreases |s|
  {
    if s != [] && IsTrimmable(s[0]) then TrimStart(s[1..]) else s
  }

  /** `s` without its trailing white space. */
  function TrimEnd(s: string): (r: string)
    ensures |r| <= |s| && r == s[..|r|]
    ensures forall k :: |r| <= k < |s| ==> IsTrimmable(s[k])
    ensures r == [] || !IsTrimmable(r[|r| - 1])
    decreases |s|
  {
    if s != [] && IsTrimmable(s[|s| - 1]) then TrimEnd(s[..|s| - 1]) else s
  }

  /** String.prototype.trim: a contiguous piece of `s`, framed only by white space, that neither starts nor ends with white space. */
  function Trim(s: string): (r: string)
    ensures exists i :: (0 <= i <= |s| - |r| && r == s[i..i + |r|]
                         && AllTrimmable(s[..i]) && AllTrimmable(s[i + |r|..]))
    ensures r == [] || (!IsTrimmable(r[0]) && !IsTrimmable(r[|r| - 1]))
  {
    var t := TrimStart(s);
    var r := TrimEnd(t);
    var i := |s| - |t|;
    assert r == s[i..i + |r|];
    assert AllTrimmable(s[..i]);
    assert s[i + |r|..] == t[|r|..];
    assert AllTrimmable(s[i + |r|..]);
    r
  }

  /** A string that neither starts nor ends with white space is its own trim. */
  lemma TrimUnpadded(s: string)
    requires s == [] || (!IsTrimmable(s[0]) && !IsTrimmable(s[|s| - 1]))
    ensures Trim(s) == s
  {
  }

  lemma TrimIdempotent(s: string)
    ensures Trim(Trim(s)) == Trim(s)
  {
  }

  lemma {:induction false} TrimStartPrefixed(pre: string, s: string)
    requires AllTrimmable(pre)
    ensures TrimStart(pre + s) == TrimStart(s)
    decreases |pre|
  {
    if pre != [] {
      assert (pre + s)[1..] == pre[1..] + s;
      TrimStartPrefixed(pre[1..], s);
    } else {
      assert pre + s == s;
    }
  }

  lemma {:induction false} TrimStartSuffixed(s: string, post: string)
    requires !AllTrimmable(s)
    ensures TrimStart(s + post) == TrimStart(s) + post
    decreases |s|
  {
    if IsTrimmable(s[0]) {
      assert (s + post)[1..] == s[1..] + post;
      TrimStartSuffixed(s[1..], post);
    }
  }

  lemma {:induction false} TrimEndSuffixed(t: string, post: string)
    requires AllTrimmable(post)
    ensures TrimEnd(t + post) == TrimEnd(t)
    decreases |post|
  {
    if post != [] {
      var q := post[..|post| - 1];
      assert (t + post)[..|t + post| - 1] == t + q;
      TrimEndSuffixed(t, q);
    } else {
      assert t + post == t;
    }
  }

  /** White space on either side never changes what trim returns. */
  lemma TrimPadding(pre: string, s: string, post: string)
    requires AllTrimmable(pre) && AllTrimmable(post)
    ensures Trim(pre + s + post) == Trim(s)
  {
    assert pre + s + post == pre + (s + post);
    TrimStartPrefixed(pre, s + post);
    if !AllTrimmable(s) {
      TrimStartSuffixed(s, post);
      TrimEndSuffixed(TrimStart(s), post);
    } else {
      assert AllTrimmable(s + post);
      assert TrimStart(s + post) == [];
      assert TrimStart(s) == [];
    }
  }

  /**
   * The position an array method uses for a relative index `k` on a sequence
   * of length `len`: counted from the end when negative, then clamped to
   * [0, len] (splice's start, slice's end).
   */
  function RelativeIndex(k: int, len: nat): (i: nat)
    ensures i <= len
    ensures k < 0 ==> i == Max(0, len + k)
    ensures k >= 0 ==> i == Min(k, len)
  {
    if k < 0 then (if len + k < 0 then 0 else len + k) else if k > len then len else k
  }

  /**
   * What `a` holds after `a.splice(start, deleteCount, ...items)`: the part
   * before the relative start is kept, `items` go in there, and after them
   * `a` continues once min(deleteCount, elements from the start on) elements
   * are skipped (none for a count that is not positive).
   */
  function Splice<T>(s: seq<T>, start: int, deleteCount: int, items: seq<T>): (r: seq<T>)
    ensures var k, d := RelativeIndex(start, |s|), |s| + |items| - |r|;
            0 <= d <= |s| - k
            && (deleteCount <= 0 ==> d == 0)
            && (deleteCount > 0 ==> d == Min(deleteCount, |s| - k))
            && r == s[..k] + items + s[k + d..]
  {
    var k := RelativeIndex(start, |s|);
    var d := if deleteCount < 0 then 0 else Min(deleteCount, |s| - k);
    s[..k] + items + s[k + d..]
  }

  /** `s.slice(start)` for a start that is never negative: the start is clamped to the length. */
  function SliceFrom(s: string, start: nat): string
  {
    if start <= |s| then s[start..] else ""
  }

  /** `s.slice(0, end)` for an end that is never negative: the end is clamped to the length. */
  function SliceTo(s: string, end: nat): string
  {
    if end <= |s| then s[..end] else s
  }

  /** `slice` clamps its start to the length: what is left is the suffix from min(start, |s|). */
  lemma SliceFromClamped(s: string, start: nat)
    ensures SliceFrom(s, start) == s[Min(start, |s|)..]
    ensures |SliceFrom(s, start)| == |s| - Min(start, |s|)
  {
  }

  /** `slice` clamps its end to the length: what is left is the prefix up to min(end, |s|). */
  lemma SliceToClamped(s: string, end: nat)
    ensures SliceTo(s, end) == s[..Min(end, |s|)]
    ensures |SliceTo(s, end)| == Min(end, |s|)
  {
  }

  /** `s.indexOf(c)`: the first index holding `c`, or -1. */
  function IndexOf(s: string, c: char): (i: int)
    ensures -1 <= i < |s|
    ensures i == -1 <==> c !in s
    ensures 0 <= i ==> s[i] == c && forall k :: 0 <= k < i ==> s[k] != c
    decreases |s|
  {
    if s == [] then -1
    else if s[0] == c then 0
    else
      var j := IndexOf(s[1..], c);
      if j == -1 then -1 else j + 1
  }

  /** `s.lastIndexOf(c)`: the last index holding `c`, or -1. */
  function LastIndexOf(s: string, c: char): (i: int)
    ensures -1 <= i < |s|
    ensures i == -1 <==> c !in s
    ensures 0 <= i ==> s[i] == c && forall k :: i < k < |s| ==> s[k] != c
    decreases |s|
  {
    if s == [] then -1
    else if s[|s| - 1] == c then |s| - 1
    else LastIndexOf(s[..|s| - 1], c)
  }
}
