/** The few ECMAScript string built-ins the commit formatter relies on:
    `trim`, `slice(0, n)` and the lower-casing of one character. */
module JsString {

  /** The code points `String.prototype.trim` removes: ECMAScript's
      WhiteSpace (TAB, VT, FF, SP, NBSP, ZWNBSP and the Zs category) and
      LineTerminator (LF, CR, LS, PS). */
  predicate IsTrimmable(c: char) {
    c == '\t' || c == '\n' || c == '\U{000B}' || c == '\U{000C}' || c == '\r'
    || c == ' ' || c == '\U{00A0}' || c == '\U{1680}'
    || ('\U{2000}' <= c <= '\U{200A}')
    || c == '\U{2028}' || c == '\U{2029}' || c == '\U{202F}' || c == '\U{205F}'
    || c == '\U{3000}' || c == '\U{FEFF}'
  }

  predicate AllTrimmable(s: string) {
    forall k :: 0 <= k < |s| ==> IsTrimmable(s[k])
  }

  /** Neither end of `s` is trimmable. */
  predicate Bare(s: string) {
    s == [] || (!IsTrimmable(s[0]) && !IsTrimmable(s[|s| - 1]))
  }

  /** `t` is what is left of `s` once the trimmable run before index `i` and
      the trimmable run after `t` are cut off. */
  predicate TrimmedAt(s: string, i: int, t: string) {
    0 <= i && i + |t| <= |s| && t == s[i..i + |t|]
    && (forall k :: 0 <= k < i ==> IsTrimmable(s[k]))
    && (forall k :: i + |t| <= k < |s| ==> IsTrimmable(s[k]))
    && Bare(t)
  }

  /** The number of trimmable characters at the start of `s`. */
  function LeadLen(s: string): (n: nat)
    ensures n <= |s|
    ensures forall k :: 0 <= k < n ==> IsTrimmable(s[k])
    ensures n == |s| || !IsTrimmable(s[n])
  {
    if |s| > 0 && IsTrimmable(s[0]) then 1 + LeadLen(s[1..]) else 0
  }

  /** The number of trimmable characters at the end of `s`. */
  function TrailLen(s: string): (n: nat)
    ensures n <= |s|
    ensures forall k :: |s| - n <= k < |s| ==> IsTrimmable(s[k])
    ensures n == |s| || !IsTrimmable(s[|s| - n - 1])
  {
    if |s| > 0 && IsTrimmable(s[|s| - 1]) then 1 + TrailLen(s[..|s| - 1]) else 0
  }

  /** `String.prototype.trim`: cut the leading run, then the trailing run of
      what is left. Its meaning is stated by `TrimSpec`. */
  function Trim(s: string): string {
    var m := s[LeadLen(s)..];
    m[..|m| - TrailLen(m)]
  }

  /** The result of trim is the middle part of `s` between a trimmable prefix
      and a trimmable suffix, and has no trimmable end; it is empty exactly
      when all of `s` is trimmable. */
  lemma TrimSpec(s: string)
    ensures TrimmedAt(s, LeadLen(s), Trim(s))
    ensures Trim(s) == [] <==> AllTrimmable(s)
  {
    var i := LeadLen(s);
    var m := s[i..];
    var t := TrailLen(m);
    var r := Trim(s);
    assert r == s[i..|s| - t];
    assert forall k :: |s| - t <= k < |s| ==> IsTrimmable(s[k]) by {
      forall k | |s| - t <= k < |s| ensures IsTrimmable(s[k]) { assert s[k] == m[k - i]; }
    }
    if r != [] {
      assert r[0] == s[i];
      assert r[|r| - 1] == m[|m| - t - 1];
    }
  }

  /** Trim is the only way to split `s` into trimmable prefix, bare middle and
      trimmable suffix: any such middle part equals `Trim(s)`. */
  lemma TrimUnique(s: string, i: int, t: string)
    requires TrimmedAt(s, i, t)
    ensures t == Trim(s)
  {
    var r := Trim(s);
    var j := LeadLen(s);
    assert TrimmedAt(s, j, r);
    if t != [] {
      assert s[i] == t[0];
      assert s[j] == r[0];
      assert i == j;
      assert s[i + |t| - 1] == t[|t| - 1];
      assert s[j + |r| - 1] == r[|r| - 1];
      assert |t| == |r|;
    }
  }

  /** Trimming twice is trimming once. */
  lemma TrimIdempotent(s: string)
    ensures Trim(Trim(s)) == Trim(s)
  {
    var r := Trim(s);
    assert r[0..0 + |r|] == r && r[..0] == [] && r[|r|..] == [];
    TrimUnique(r, 0, r);
  }

  /** A string with no trimmable end is its own trim. */
  lemma TrimBare(s: string)
    requires Bare(s)
    ensures Trim(s) == s
  {
    assert s[0..0 + |s|] == s && s[..0] == [] && s[|s|..] == [];
    TrimUnique(s, 0, s);
  }

  /** Every character of `Trim(s)` is a character of `s`. */
  lemma TrimChars(s: string)
    ensures forall c :: c in Trim(s) ==> c in s
  {
    TrimSpec(s);
    var r, i := Trim(s), LeadLen(s);
    forall c | c in r ensures c in s {
      var k :| 0 <= k < |r| && r[k] == c;
      assert s[i + k] == c;
    }
  }

  /** `s.slice(0, n)` for a non-negative `n`: the first `n` characters, or all
      of `s` when it is shorter. */
  function SliceTo(s: string, n: nat): (r: string)
    ensures |r| <= n && r <= s
    ensures |s| <= n ==> r == s
    ensures |s| > n ==> |r| == n
  {
    if |s| <= n then s else s[..n]
  }

  /** `toLowerCase` of one character, restricted to the ASCII capitals. */
  function ToLowerAscii(c: char): (d: char)
    ensures !('A' <= d <= 'Z')
    ensures c != d ==> 'A' <= c <= 'Z' && d as int == c as int + 32
  {
    if 'A' <= c <= 'Z' then (c as int + 32) as char else c
  }

  lemma ToLowerAsciiIdempotent(c: char)
    ensures ToLowerAscii(ToLowerAscii(c)) == ToLowerAscii(c)
  {
  }
}
