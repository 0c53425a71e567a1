/**
 * `String.prototype.trim` of ECMAScript (section 22.1.3.32 of ECMA-262, 14th edition):
 * it removes leading and trailing code points that are WhiteSpace (section 12.2)
 * or LineTerminator (section 12.3).
 */
module JsText {

  /**
   * WhiteSpace: TAB, VT, FF, ZWNBSP and every Space_Separator (Zs) code point of Unicode 15;
   * LineTerminator: LF, CR, LINE SEPARATOR and PARAGRAPH SEPARATOR.
   */
  predicate IsTrimmable(c: char)
  {
    var n := c as int;
    n == 0x09 || n == 0x0B || n == 0x0C || n == 0xFEFF
    || n == 0x20 || n == 0xA0 || n == 0x1680 || 0x2000 <= n <= 0x200A
    || n == 0x202F || n == 0x205F || n == 0x3000
    || n == 0x0A || n == 0x0D || n == 0x2028 || n == 0x2029
  }

  /** Drops the leading trimmable code points: the result is the longest suffix starting with a kept one. */
  function TrimStart(s: string): (r: string)
    ensures |r| <= |s| && r == s[|s| - |r|..]
    ensures forall i :: 0 <= i < |s| - |r| ==> IsTrimmable(s[i])
    ensures r == [] || !IsTrimmable(r[0])
  {
    if s == [] || !IsTrimmable(s[0]) then s else TrimStart(s[1..])
  }

  /** Drops the trailing trimmable code points: the result is the longest prefix ending with a kept one. */
  function TrimEnd(s: string): (r: string)
    ensures |r| <= |s| && r == s[..|r|]
    ensures forall i :: |r| <= i < |s| ==> IsTrimmable(s[i])
    ensures r == [] || !IsTrimmable(r[|r| - 1])
  {
    if s == [] || !IsTrimmable(s[|s| - 1]) then s else TrimEnd(s[..|s| - 1])
  }

  /** `s.trim()`: a slice of `s` that drops only trimmable code points and starts and ends with a kept one. */
  function Trim(s: string): (r: string)
    ensures |r| <= |TrimStart(s)| <= |s|
    ensures r == s[|s| - |TrimStart(s)|..|s| - |TrimStart(s)| + |r|]
    ensures forall k :: 0 <= k < |s| - |TrimStart(s)| ==> IsTrimmable(s[k])
    ensures forall k :: |s| - |TrimStart(s)| + |r| <= k < |s| ==> IsTrimmable(s[k])
    ensures r == [] || (!IsTrimmable(r[0]) && !IsTrimmable(r[|r| - 1]))
  {
    TrimEnd(TrimStart(s))
  }

  /**
   * `!s.trim()`: the trimmed string is empty, which JavaScript reads as false. Trimming
   * the end never empties a string whose start trimming left non-empty.
   */
  predicate IsBlank(s: string): (b: bool)
    ensures b <==> TrimStart(s) == ""
  {
    Trim(s) == ""
  }

  /** A string is blank exactly when every code point of it is trimmable. */
  lemma BlankIffAllTrimmable(s: string)
    ensures IsBlank(s) <==> forall i :: 0 <= i < |s| ==> IsTrimmable(s[i])
  {
  }
}
