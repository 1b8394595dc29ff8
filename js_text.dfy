/** The two pieces of JavaScript string semantics the token report relies on:
    String.prototype.trim, used to decide whether a name or symbol is blank, and
    the decimal rendering of an integer inside a template literal, used in the
    "Unusual decimals" message. */
module JsText {

  /** The characters trim() removes at either end: the WhiteSpace and
      LineTerminator code points of ECMAScript (tab, vertical tab, form feed,
      no-break space, byte order mark, the space separators, LF, CR and the
      line and paragraph separators). */
  predicate IsTrimmable(c: char) {
    c == '\U{0009}' || c == '\U{000B}' || c == '\U{000C}' || c == ' '
    || c == '\U{00A0}' || c == '\U{FEFF}' || c == '\U{1680}'
    || ('\U{2000}' <= c <= '\U{200A}') || c == '\U{202F}' || c == '\U{205F}' || c == '\U{3000}'
    || c == '\n' || c == '\r' || c == '\U{2028}' || c == '\U{2029}'
  }

  /** Every character of s is one that trim() removes. */
  predicate IsBlank(s: string) {
    forall i :: 0 <= i < |s| ==> IsTrimmable(s[i])
  }

  /** s without its leading trimmable characters: a suffix of s, everything
      dropped is trimmable, and what is kept does not start with one. */
  function TrimStart(s: string): (r: string)
    ensures |r| <= |s| && r == s[|s| - |r|..]
    ensures forall i :: 0 <= i < |s| - |r| ==> IsTrimmable(s[i])
    ensures r == [] || !IsTrimmable(r[0])
  {
    if |s| > 0 && IsTrimmable(s[0]) then TrimStart(s[1..]) else s
  }

  /** s without its trailing trimmable characters: a prefix of s, everything
      dropped is trimmable, and what is kept does not end with one. */
  function TrimEnd(s: string): (r: string)
    ensures |r| <= |s| && r == s[..|r|]
    ensures forall i :: |r| <= i < |s| ==> IsTrimmable(s[i])
    ensures r == [] || !IsTrimmable(r[|r| - 1])
  {
    if |s| > 0 && IsTrimmable(s[|s| - 1]) then TrimEnd(s[..|s| - 1]) else s
  }

  /** String.prototype.trim: the part of s between a leading and a trailing
      run of trimmable characters, neither starting nor ending with one
      (when to expect "" is TrimEmptyIffBlank). */
  function Trim(s: string): (r: string)
    ensures |r| <= |s|
    ensures exists a, b ::
      && 0 <= a <= b <= |s| && r == s[a..b]
      && (forall i :: 0 <= i < a ==> IsTrimmable(s[i]))
      && (forall i :: b <= i < |s| ==> IsTrimmable(s[i]))
    ensures r == [] || (!IsTrimmable(r[0]) && !IsTrimmable(r[|r| - 1]))
  {
    var t := TrimStart(s);
    var r := TrimEnd(t);
    var a := |s| - |t|;
    assert r == s[a..a + |r|];
    r
  }

  /** trim() yields the empty string exactly when every character is trimmable. */
  lemma TrimEmptyIffBlank(s: string)
    ensures Trim(s) == "" <==> IsBlank(s)
  {
    var t := TrimStart(s);
    if Trim(s) == "" {
      // TrimEnd(t) is empty, so all of t is trimmable; t keeps no leading
      // trimmable character, so t is empty and TrimStart dropped all of s
      assert t == [];
    }
  }

  predicate IsDigit(c: char) {
    '0' <= c <= '9'
  }

  function DigitChar(d: nat): (c: char)
    requires d < 10
    ensures IsDigit(c) && c as int - '0' as int == d
  {
    ('0' as int + d) as char
  }

  /** The decimal rendering of n that JavaScript gives an integer-valued
      number or a bigint: digits only, most significant first, no leading
      zero except for 0 itself. */
  function Decimal(n: nat): (s: string)
    ensures |s| >= 1 && forall i :: 0 <= i < |s| ==> IsDigit(s[i])
    ensures s[0] == '0' ==> n == 0
  {
    if n < 10 then [DigitChar(n)] else Decimal(n / 10) + [DigitChar(n % 10)]
  }

  function DigitValue(c: char): (d: nat)
    requires IsDigit(c)
    ensures d < 10 && DigitChar(d) == c
  {
    c as int - '0' as int
  }

  /** The number a string of decimal digits denotes. */
  function DecimalValue(s: string): nat
    requires forall i :: 0 <= i < |s| ==> IsDigit(s[i])
  {
    if s == [] then 0
    else DecimalValue(s[..|s| - 1]) * 10 + DigitValue(s[|s| - 1])
  }

  /** Reading back the rendering gives the number: the rendering loses nothing. */
  lemma {:induction false} DecimalRoundTrip(n: nat)
    ensures DecimalValue(Decimal(n)) == n
  {
    if n >= 10 {
      DecimalRoundTrip(n / 10);
      var s := Decimal(n);
      assert s[..|s| - 1] == Decimal(n / 10);
    }
  }
}
