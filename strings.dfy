/** The JavaScript string built-ins the application calls: `trim`,
    `toLowerCase` (restricted to ASCII letters) and `includes`. */
module Strings {

  /** ECMAScript's WhiteSpace and LineTerminator code points, which `trim` removes. */
  predicate IsWhitespace(c: char) {
    var n := c as int;
    (0x09 <= n <= 0x0D) || n == 0x20 || n == 0xA0 || n == 0x1680
    || (0x2000 <= n <= 0x200A) || n == 0x2028 || n == 0x2029 || n == 0x202F
    || n == 0x205F || n == 0x3000 || n == 0xFEFF
  }

  /** Whether every character of `s` passes the test `ws`. */
  predicate AllPass(ws: char -> bool, s: string) {
    forall i :: 0 <= i < |s| ==> ws(s[i])
  }

  predicate AllWhitespace(s: string) {
    AllPass(IsWhitespace, s)
  }

  /** The index of the first character of `s` at or after `k` that fails
      `ws`, or `|s|` when there is none. */
  function SkipForward(ws: char -> bool, s: string, k: nat): (n: nat)
    requires k <= |s|
    ensures k <= n <= |s|
    ensures forall j :: k <= j < n ==> ws(s[j])
    ensures n < |s| ==> !ws(s[n])
    decreases |s| - k
  {
    if k < |s| && ws(s[k]) then SkipForward(ws, s, k + 1) else k
  }

  /** The index just after the last character of `s[lo..k]` that fails
      `ws`, or `lo` when there is none. */
  function SkipBackward(ws: char -> bool, s: string, lo: nat, k: nat): (n: nat)
    requires lo <= k <= |s|
    ensures lo <= n <= k
    ensures forall j :: n <= j < k ==> ws(s[j])
    ensures n > lo ==> !ws(s[n - 1])
    decreases k
  {
    if k > lo && ws(s[k - 1]) then SkipBackward(ws, s, lo, k - 1) else k
  }

  /** Where the kept slice of `s` starts and ends. */
  function StripStart(ws: char -> bool, s: string): nat {
    SkipForward(ws, s, 0)
  }

  function StripEnd(ws: char -> bool, s: string): nat {
    SkipBackward(ws, s, StripStart(ws, s), |s|)
  }

  /** The slice of `s` left after dropping the characters passing `ws` at
      both ends: every character before it and after it passes, and its
      first and last characters fail. */
  function Strip(ws: char -> bool, s: string): (r: string)
    ensures 0 <= StripStart(ws, s) <= StripEnd(ws, s) <= |s|
    ensures r == s[StripStart(ws, s)..StripEnd(ws, s)]
    ensures forall k :: 0 <= k < StripStart(ws, s) ==> ws(s[k])
    ensures forall k :: StripEnd(ws, s) <= k < |s| ==> ws(s[k])
    ensures r == [] || (!ws(r[0]) && !ws(r[|r| - 1]))
  {
    s[StripStart(ws, s)..StripEnd(ws, s)]
  }

  /** Stripping twice strips nothing more. */
  lemma StripIdempotent(ws: char -> bool, s: string)
    ensures Strip(ws, Strip(ws, s)) == Strip(ws, s)
  {
    var r := Strip(ws, s);
    if r != [] {
      assert StripStart(ws, r) == 0;
      assert StripEnd(ws, r) == |r|;
    }
  }

  /** A string strips to nothing exactly when every character passes. */
  lemma StripEmptyIffAllPass(ws: char -> bool, s: string)
    ensures Strip(ws, s) == [] <==> AllPass(ws, s)
  {
    if Strip(ws, s) == [] {
      var i, j := StripStart(ws, s), StripEnd(ws, s);
      forall k | 0 <= k < |s| ensures ws(s[k]) {
        assert k < i || j <= k;
      }
    }
  }

  /** `String.prototype.trim`: the slice of `s` whose outside characters
      are all whitespace and whose first and last characters are not. */
  function Trim(s: string): (r: string)
    ensures var i, j := StripStart(IsWhitespace, s), StripEnd(IsWhitespace, s);
      0 <= i <= j <= |s| && r == s[i..j]
      && (forall k :: 0 <= k < i ==> IsWhitespace(s[k]))
      && (forall k :: j <= k < |s| ==> IsWhitespace(s[k]))
    ensures r == [] || (!IsWhitespace(r[0]) && !IsWhitespace(r[|r| - 1]))
  {
    Strip(IsWhitespace, s)
  }

  /** Trimming twice trims nothing more. */
  lemma TrimIdempotent(s: string)
    ensures Trim(Trim(s)) == Trim(s)
  {
    StripIdempotent(IsWhitespace, s);
  }

  /** A string trims to nothing exactly when it is all whitespace. */
  lemma TrimEmptyIffAllWhitespace(s: string)
    ensures Trim(s) == [] <==> AllWhitespace(s)
  {
    StripEmptyIffAllPass(IsWhitespace, s);
  }

  function LowerChar(c: char): char {
    if 'A' <= c <= 'Z' then (c as int + 32) as char else c
  }

  /** `String.prototype.toLowerCase` on ASCII letters; every other character is kept. */
  function ToLower(s: string): (r: string)
    ensures |r| == |s|
    ensures forall i :: 0 <= i < |s| ==> r[i] == LowerChar(s[i])
    ensures NoCapitals(r)
  {
    seq(|s|, i requires 0 <= i < |s| => LowerChar(s[i]))
  }

  /** `s` holds no ASCII capital letter. */
  predicate NoCapitals(s: string) {
    forall i :: 0 <= i < |s| ==> !('A' <= s[i] <= 'Z')
  }

  /** Trimming keeps a text free of capitals: it only takes a slice. */
  lemma TrimKeepsNoCapitals(s: string)
    requires NoCapitals(s)
    ensures NoCapitals(Trim(s))
  {
  }

  /** `q` occurs in `s` starting at index `i`. */
  predicate OccursAt(s: string, q: string, i: nat) {
    i + |q| <= |s| && s[i..i + |q|] == q
  }

  /** `String.prototype.includes`: `q` occurs somewhere in `s`
      (the empty string occurs in every string). */
  function Contains(s: string, q: string): (b: bool)
    ensures b <==> exists i: nat :: OccursAt(s, q, i)
    decreases |s|
  {
    if OccursAt(s, q, 0) then true
    else if s == [] then false
    else
      var b := Contains(s[1..], q);
      if b then
        var i: nat :| OccursAt(s[1..], q, i);
        assert s[i + 1..i + 1 + |q|] == s[1..][i..i + |q|];
        assert OccursAt(s, q, i + 1);
        b
      else
        assert forall i: nat :: OccursAt(s, q, i) ==> i > 0 && OccursAt(s[1..], q, i - 1) by {
          forall i: nat | OccursAt(s, q, i) ensures i > 0 && OccursAt(s[1..], q, i - 1) {
            assert i != 0;
            assert s[1..][i - 1..i - 1 + |q|] == s[i..i + |q|];
          }
        }
        b
  }
}
