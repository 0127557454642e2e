/**
 The few JavaScript string operations the core relies on, over `string`
 (a sequence of Unicode scalar values): the `\s` character class of regular
 expressions, `toLowerCase` restricted to ASCII letters, `includes`, and
 `split(c)[0]`.
 */
module JsStrings {

  /**
   The characters `\s` matches in an ECMAScript regular expression: the
   WhiteSpace code points (tab, vertical tab, form feed, space, no-break space,
   zero-width no-break space and the other space separators) and the
   LineTerminator code points.
   */
  predicate IsSpace(c: char)
  {
    c == '\t' || c == '\n' || c == '\U{000B}' || c == '\U{000C}' || c == '\r' ||
    c == ' ' || c == '\U{00A0}' || c == '\U{1680}' ||
    ('\U{2000}' <= c <= '\U{200A}') ||
    c == '\U{2028}' || c == '\U{2029}' || c == '\U{202F}' || c == '\U{205F}' ||
    c == '\U{3000}' || c == '\U{FEFF}'
  }

  /** Within ASCII, `\s` is exactly tab, line feed, vertical tab, form feed, carriage return and space. */
  lemma IsSpaceAscii(c: char)
    requires c as int < 128
    ensures IsSpace(c) <==> c as int in {9, 10, 11, 12, 13, 32}
  {
  }

  predicate IsUpperAscii(c: char)
  {
    'A' <= c <= 'Z'
  }

  /** `toLowerCase` on one character, for the ASCII letters. */
  function LowerChar(c: char): (r: char)
    ensures !IsUpperAscii(r)
    ensures IsUpperAscii(c) ==> r as int == c as int + 32
    ensures !IsUpperAscii(c) ==> r == c
  {
    if IsUpperAscii(c) then (c as int + 32) as char else c
  }

  /** `toLowerCase`, character by character. */
  function Lower(s: string): (r: string)
    ensures |r| == |s|
    ensures forall i :: 0 <= i < |s| ==> r[i] == LowerChar(s[i])
  {
    if s == [] then [] else [LowerChar(s[0])] + Lower(s[1..])
  }

  /** Lower-casing twice is lower-casing once. */
  lemma LowerIdempotent(s: string)
    ensures Lower(Lower(s)) == Lower(s)
  {
  }

  /** A string of small ASCII letters is its own lower-case form. */
  lemma LowerOfLowerAscii(s: string)
    requires forall i :: 0 <= i < |s| ==> 'a' <= s[i] <= 'z'
    ensures Lower(s) == s
  {
  }

  /** `s.includes(sub)`: `sub` occurs somewhere in `s` as a contiguous block. */
  predicate Includes(s: string, sub: string)
  {
    exists i :: 0 <= i <= |s| - |sub| && OccursAt(s, sub, i)
  }

  /** `sub` starts at position `i` of `s`. */
  predicate OccursAt(s: string, sub: string, i: int)
  {
    0 <= i <= |s| - |sub| && s[i..i + |sub|] == sub
  }

  /** A string placed between two others is included in the result. */
  lemma IncludesJoin(a: string, sub: string, b: string)
    ensures Includes(a + sub + b, sub)
  {
    var s := a + sub + b;
    assert s[|a|..|a| + |sub|] == sub;
    assert OccursAt(s, sub, |a|);
  }

  /** Nothing longer than a string is included in it. */
  lemma IncludesTooLong(s: string, sub: string)
    requires |sub| > |s|
    ensures !Includes(s, sub)
  {
  }

  /**
   `s.split(c)[0]`: the text before the first `c`, or all of `s` when `c`
   does not occur.
   */
  function BeforeFirst(s: string, c: char): (r: string)
    ensures |r| <= |s| && r == s[..|r|]
    ensures c !in r
    ensures |r| < |s| ==> s[|r|] == c
  {
    if s == [] then []
    else if s[0] == c then []
    else [s[0]] + BeforeFirst(s[1..], c)
  }

  /** With no `c` in `s`, split(c)[0] is the whole string. */
  lemma BeforeFirstAbsent(s: string, c: char)
    requires c !in s
    ensures BeforeFirst(s, c) == s
  {
  }

  /**
   When `c` occurs in `s`, the string is the part before it, then `c`, then the
   rest: BeforeFirst cuts at the first occurrence.
   */
  lemma BeforeFirstSplits(s: string, c: char)
    requires c in s
    ensures |BeforeFirst(s, c)| < |s|
    ensures s == BeforeFirst(s, c) + [c] + s[|BeforeFirst(s, c)| + 1..]
  {
  }

  /** Cutting `a + [c] + b` at the first `c` gives `a` back when `c` is not in `a`. */
  lemma {:induction false} BeforeFirstOfJoin(a: string, b: string, c: char)
    requires c !in a
    ensures BeforeFirst(a + [c] + b, c) == a
  {
    if a == [] {
      assert (a + [c] + b)[0] == c;
    } else {
      assert (a + [c] + b)[1..] == a[1..] + [c] + b;
      BeforeFirstOfJoin(a[1..], b, c);
    }
  }
}
