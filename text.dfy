/** JavaScript's `String.prototype.trim`, as used by `handleSearch` to decide
    whether the query is blank. */
module Text {

  /** The code points `trim` removes: the WhiteSpace and LineTerminator code
      points of ECMA-262 (tab, line tabulation, form feed, space, no-break
      space, the byte order mark, the other Unicode space separators, line
      feed, carriage return, line separator and paragraph separator). */
  predicate IsTrimmable(c: char) {
    c == '\t' || c == '\n' || c == '\U{000B}' || c == '\U{000C}' || c == '\r'
    || c == ' ' || c == '\U{00A0}' || c == '\U{1680}'
    || ('\U{2000}' <= c <= '\U{200A}')
    || c == '\U{2028}' || c == '\U{2029}' || c == '\U{202F}' || c == '\U{205F}'
    || c == '\U{3000}' || c == '\U{FEFF}'
  }

  /** Every character of `s` is one that `trim` removes. */
  predicate IsBlank(s: string) {
    forall k | 0 <= k < |s| :: IsTrimmable(s[k])
  }

  /** `s` without its leading trimmable characters. */
  function TrimStart(s: string): string {
    if s != [] && IsTrimmable(s[0]) then TrimStart(s[1..]) else s
  }

  /** `s` without its trailing trimmable characters. */
  function TrimEnd(s: string): string {
    if s != [] && IsTrimmable(s[|s| - 1]) then TrimEnd(s[..|s| - 1]) else s
  }

  /** `s.trim()`. */
  function Trim(s: string): string {
    TrimEnd(TrimStart(s))
  }

  /** `TrimStart` removes a blank prefix and stops at the first character it
      must keep. */
  lemma {:induction false} TrimStartRemovesBlankPrefix(s: string)
    ensures var r := TrimStart(s);
      |r| <= |s| && r == s[|s| - |r|..] && IsBlank(s[..|s| - |r|])
      && (r == [] || !IsTrimmable(r[0]))
  {
    if s != [] && IsTrimmable(s[0]) {
      TrimStartRemovesBlankPrefix(s[1..]);
      var r := TrimStart(s[1..]);
      assert s[..|s| - |r|] == [s[0]] + s[1..][..|s| - 1 - |r|];
    }
  }

  /** `TrimEnd` removes a blank suffix and stops at the last character it
      must keep. */
  lemma {:induction false} TrimEndRemovesBlankSuffix(s: string)
    ensures var r := TrimEnd(s);
      |r| <= |s| && r == s[..|r|] && IsBlank(s[|r|..])
      && (r == [] || !IsTrimmable(r[|r| - 1]))
  {
    if s != [] && IsTrimmable(s[|s| - 1]) {
      var n := |s| - 1;
      TrimEndRemovesBlankSuffix(s[..n]);
      var r := TrimEnd(s[..n]);
      assert s[|r|..] == s[..n][|r|..] + [s[n]];
    }
  }

  /** `s.trim()` is empty exactly when every character of `s` is trimmable. */
  lemma TrimEmptyIffBlank(s: string)
    ensures Trim(s) == [] <==> IsBlank(s)
  {
    var t := TrimStart(s);
    TrimStartRemovesBlankPrefix(s);
    TrimEndRemovesBlankSuffix(t);
    if TrimEnd(t) == [] {
      assert t == t[0..];
      assert s == s[..|s| - |t|] + t;
    }
  }
}
