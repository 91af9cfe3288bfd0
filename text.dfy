/** The handful of Python string operations the chat code relies on:
    str.strip(), str.lower(), the `in` substring test and the slice s[:n]. */
module Text {

  /** Python's str.isspace() for a single character: the ASCII controls
      TAB..CR, the separators 0x1C..0x1F, SPACE and the Unicode white space. */
  predicate IsSpace(c: char) {
    var n := c as int;
    n == 0x20 || (0x09 <= n <= 0x0D) || (0x1C <= n <= 0x1F) || n == 0x85 || n == 0xA0
    || n == 0x1680 || (0x2000 <= n <= 0x200A) || n == 0x2028 || n == 0x2029
    || n == 0x202F || n == 0x205F || n == 0x3000
  }

  predicate AllSpace(s: string) {
    forall k :: 0 <= k < |s| ==> IsSpace(s[k])
  }

  predicate StartsWith(s: string, prefix: string) {
    |prefix| <= |s| && s[..|prefix|] == prefix
  }

  predicate EndsWith(s: string, suffix: string) {
    |suffix| <= |s| && s[|s| - |suffix|..] == suffix
  }

  /** `sub` occurs in `s` starting at index `i`. */
  predicate OccursAt(s: string, sub: string, i: int) {
    0 <= i && i + |sub| <= |s| && s[i..i + |sub|] == sub
  }

  /** Every character of s[a..b] is white space. */
  predicate SpaceBetween(s: string, a: int, b: int) {
    forall k :: a <= k < b && 0 <= k < |s| ==> IsSpace(s[k])
  }

  /** The index of the first non-space character at or after i, or |s| if
      there is none (the left half of str.strip()). */
  function SkipSpace(s: string, i: nat): (j: nat)
    requires i <= |s|
    ensures i <= j <= |s|
    ensures SpaceBetween(s, i, j)
    ensures j < |s| ==> !IsSpace(s[j])
    decreases |s| - i
  {
    if i < |s| && IsSpace(s[i]) then SkipSpace(s, i + 1) else i
  }

  /** One past the last non-space character before j, going no lower than lo
      (the right half of str.strip()). */
  function BackSpace(s: string, lo: nat, j: nat): (e: nat)
    requires lo <= j <= |s|
    ensures lo <= e <= j
    ensures SpaceBetween(s, e, j)
    ensures lo < e ==> !IsSpace(s[e - 1])
    decreases j
  {
    if lo < j && IsSpace(s[j - 1]) then BackSpace(s, lo, j - 1) else j
  }

  /** Python's str.strip() with no argument: the slice between the leading and
      the trailing white space. */
  function Strip(s: string): (r: string)
    ensures var i := SkipSpace(s, 0);
      i + |r| <= |s| && r == s[i..i + |r|] && SpaceBetween(s, 0, i) && SpaceBetween(s, i + |r|, |s|)
    ensures r == [] || (!IsSpace(r[0]) && !IsSpace(r[|r| - 1]))
  {
    var i := SkipSpace(s, 0);
    var e := BackSpace(s, i, |s|);
    assert e < |s| ==> SpaceBetween(s, e, |s|);
    s[i..e]
  }

  /** A string strips to the empty string exactly when it is all white space. */
  lemma StripEmptyIff(s: string)
    ensures Strip(s) == [] <==> AllSpace(s)
  {
    var i := SkipSpace(s, 0);
    if Strip(s) == [] {
      assert SpaceBetween(s, 0, i) && SpaceBetween(s, i, |s|);
    } else {
      assert Strip(s)[0] == s[i];
    }
  }

  /** Python's str.lower() restricted to the ASCII letters. */
  function LowerChar(c: char): (d: char)
    ensures 'A' <= c <= 'Z' ==> 'a' <= d <= 'z' && d as int == c as int + 32
    ensures !('A' <= c <= 'Z') ==> d == c
  {
    if 'A' <= c <= 'Z' then (c as int + 32) as char else c
  }

  function Lower(s: string): (r: string)
    ensures |r| == |s|
    ensures forall k :: 0 <= k < |s| ==> r[k] == LowerChar(s[k])
  {
    if s == [] then [] else [LowerChar(s[0])] + Lower(s[1..])
  }

  /** Lower-casing twice is lower-casing once. */
  lemma LowerIdempotent(s: string)
    ensures Lower(Lower(s)) == Lower(s)
  {
    assert forall k :: 0 <= k < |s| ==> LowerChar(LowerChar(s[k])) == LowerChar(s[k]);
  }

  /** Python's `sub in s`. */
  function Contains(s: string, sub: string): (b: bool)
    ensures b <==> exists i :: OccursAt(s, sub, i)
    decreases |s|
  {
    if |sub| > |s| then
      assert forall i :: !OccursAt(s, sub, i);
      false
    else if s[..|sub|] == sub then
      assert OccursAt(s, sub, 0);
      true
    else
      var b := Contains(s[1..], sub);
      assert forall i :: 0 < i ==> (OccursAt(s[1..], sub, i - 1) <==> OccursAt(s, sub, i)) by {
        forall i | 0 < i ensures OccursAt(s[1..], sub, i - 1) <==> OccursAt(s, sub, i) {
          if i + |sub| <= |s| {
            assert s[1..][i - 1..i - 1 + |sub|] == s[i..i + |sub|];
          }
        }
      }
      assert !OccursAt(s, sub, 0);
      assert b ==> exists i :: OccursAt(s, sub, i) by {
        if b {
          var j :| OccursAt(s[1..], sub, j);
          assert OccursAt(s, sub, j + 1);
        }
      }
      assert (exists i :: OccursAt(s, sub, i)) ==> b by {
        if exists i :: OccursAt(s, sub, i) {
          var i :| OccursAt(s, sub, i);
          assert OccursAt(s[1..], sub, i - 1);
        }
      }
      b
  }

  /** Python's slice s[:n] for n >= 0: the first n characters, or all of s. */
  function Take(s: string, n: nat): (r: string)
    ensures |r| == if |s| <= n then |s| else n
    ensures StartsWith(s, r)
  {
    if |s| <= n then s else s[..n]
  }
}
