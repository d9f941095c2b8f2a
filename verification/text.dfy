/** JavaScript's `String.prototype.trim`: removes leading and trailing white
    space and line terminators, as ECMA-262 defines them. */
module Text {

  /** ECMA-262's LineTerminator code points. */
  const LineTerminators: set<int> := {0x0A, 0x0D, 0x2028, 0x2029}

  /** The Unicode space separators (general category Zs). */
  const SpaceSeparators: set<int> :=
    {0x20, 0xA0, 0x1680, 0x2000, 0x2001, 0x2002, 0x2003, 0x2004, 0x2005,
     0x2006, 0x2007, 0x2008, 0x2009, 0x200A, 0x202F, 0x205F, 0x3000}

  /** The rest of ECMA-262's WhiteSpace: tab, vertical tab, form feed and the
      byte-order mark. */
  const OtherWhiteSpace: set<int> := {0x09, 0x0B, 0x0C, 0xFEFF}

  /** The characters `trim` strips, tested by code-point ranges. */
  predicate IsWhitespace(c: char) {
    var n := c as int;
    || (0x09 <= n <= 0x0D)
    || n == 0x20 || n == 0xA0 || n == 0x1680
    || (0x2000 <= n <= 0x200A)
    || n == 0x2028 || n == 0x2029 || n == 0x202F || n == 0x205F
    || n == 0x3000 || n == 0xFEFF
  }

  /** The range tests pick out exactly ECMA-262's listed code points. */
  lemma WhitespaceIsEcmaSet(c: char)
    ensures IsWhitespace(c) <==> c as int in LineTerminators + SpaceSeparators + OtherWhiteSpace
  {
  }

  predicate AllWhitespace(s: string) {
    forall i :: 0 <= i < |s| ==> IsWhitespace(s[i])
  }

  /** Length of the longest all-whitespace prefix. */
  function LeadingWhitespace(s: string): (n: nat)
    ensures n <= |s|
    ensures AllWhitespace(s[..n])
    ensures n < |s| ==> !IsWhitespace(s[n])
  {
    if |s| == 0 || !IsWhitespace(s[0]) then 0
    else
      var k := LeadingWhitespace(s[1..]);
      assert s[1..][..k] == s[1..k + 1];
      1 + k
  }

  /** Length of the longest all-whitespace suffix. */
  function TrailingWhitespace(s: string): (n: nat)
    ensures n <= |s|
    ensures AllWhitespace(s[|s| - n..])
    ensures n < |s| ==> !IsWhitespace(s[|s| - n - 1])
  {
    if |s| == 0 || !IsWhitespace(s[|s| - 1]) then 0
    else
      var k := TrailingWhitespace(s[..|s| - 1]);
      assert s[..|s| - 1][|s| - 1 - k..] == s[|s| - 1 - k..|s| - 1];
      1 + k
  }

  /** `s.trim()`: the middle of `s` once whitespace is stripped from both ends. */
  function Trim(s: string): (r: string)
    ensures exists i, j :: 0 <= i <= j <= |s| && r == s[i..j]
                         && AllWhitespace(s[..i]) && AllWhitespace(s[j..])
    ensures |r| > 0 ==> !IsWhitespace(r[0]) && !IsWhitespace(r[|r| - 1])
    ensures r == [] <==> AllWhitespace(s)
  {
    var i := LeadingWhitespace(s);
    var t := s[i..];
    var j := i + |t| - TrailingWhitespace(t);
    assert t[|t| - TrailingWhitespace(t)..] == s[j..];
    assert i == |s| ==> AllWhitespace(s) by {
      if i == |s| { assert s[..i] == s; }
    }
    assert AllWhitespace(s) ==> i == |s|;
    s[i..j]
  }

  /** Trim is determined by its contract: whatever whitespace-free-ended middle
      `m` sits between an all-whitespace prefix and suffix is the trimmed text. */
  lemma {:induction false} TrimUnique(p: string, m: string, q: string)
    requires AllWhitespace(p) && AllWhitespace(q)
    requires |m| > 0 ==> !IsWhitespace(m[0]) && !IsWhitespace(m[|m| - 1])
    ensures Trim(p + m + q) == m
  {
    var s := p + m + q;
    if |m| == 0 {
      assert s == p + q;
      assert AllWhitespace(s) by {
        forall k | 0 <= k < |s| ensures IsWhitespace(s[k]) {
          if k < |p| { assert s[k] == p[k]; } else { assert s[k] == q[k - |p|]; }
        }
      }
    } else {
      var n := LeadingWhitespace(s);
      assert s[|p|] == m[0];
      assert forall k :: 0 <= k < |p| ==> s[k] == p[k];
      assert n == |p|;
      var t := s[n..];
      assert t == m + q;
      var e := TrailingWhitespace(t);
      assert t[|m| - 1] == m[|m| - 1];
      assert forall k :: |m| <= k < |t| ==> t[k] == q[k - |m|];
      assert e == |q|;
      assert s[|p|..|p| + |m|] == m;
    }
  }

  /** Trimming twice is trimming once. */
  lemma TrimIdempotent(s: string)
    ensures Trim(Trim(s)) == Trim(s)
  {
    var r := Trim(s);
    TrimUnique([], r, []);
    assert [] + r + [] == r;
  }
}
