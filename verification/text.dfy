/** The two pieces of PHP string handling that end up in audit-log comments:
    interpolating an integer id into a string, and `class_basename`. */
module Text {
  import opened Wrappers

  predicate IsDigit(c: char) {
    '0' <= c <= '9'
  }

  predicate AllDigits(s: string) {
    forall i :: 0 <= i < |s| ==> IsDigit(s[i])
  }

  function DigitChar(d: nat): (c: char)
    requires d < 10
    ensures IsDigit(c)
  {
    (48 + d) as char
  }

  function DigitValue(c: char): (d: nat)
    requires IsDigit(c)
    ensures d < 10
  {
    c as int - 48
  }

  /** The decimal rendering PHP uses when an integer is interpolated into a
      string: no sign, no leading zero, at least one digit. */
  function DecimalString(n: nat): (s: string)
    ensures 0 < |s|
    ensures AllDigits(s)
    ensures 1 < |s| ==> s[0] != '0'
    decreases n
  {
    if n < 10 then [DigitChar(n)]
    else DecimalString(n / 10) + [DigitChar(n % 10)]
  }

  /** Reads a run of decimal digits back as a number; the reference inverse
      of `DecimalString`. */
  function ParseDecimal(s: string): nat
    requires AllDigits(s)
    decreases |s|
  {
    if |s| == 0 then 0
    else 10 * ParseDecimal(s[..|s| - 1]) + DigitValue(s[|s| - 1])
  }

  /** Rendering is injective: the interpolated id can be read back exactly. */
  lemma {:induction false} DecimalRoundTrip(n: nat)
    ensures ParseDecimal(DecimalString(n)) == n
    decreases n
  {
    var s := DecimalString(n);
    if n >= 10 {
      var prefix := DecimalString(n / 10);
      assert s[..|s| - 1] == prefix;
      DecimalRoundTrip(n / 10);
    }
  }

  /** How a nullable id reads inside a PHP double-quoted string: `null`
      interpolates as the empty string. */
  function IdText(id: Option<nat>): (s: string)
    ensures id.None? <==> s == ""
    ensures id.Some? ==> AllDigits(s) && ParseDecimal(s) == id.value
  {
    match id
    case None => ""
    case Some(n) => DecimalRoundTrip(n); DecimalString(n)
  }

  /** `class_basename` turns backslashes into slashes and takes the path's
      basename, so both characters separate the parts of a class name. */
  predicate IsSeparator(c: char) {
    c == '\\' || c == '/'
  }

  /** The class name without its namespace: the part after the last
      backslash or slash, or the whole name when there is none. */
  function ClassBasename(name: string): (r: string)
    ensures |r| <= |name| && name[|name| - |r|..] == r
    ensures forall i :: 0 <= i < |r| ==> !IsSeparator(r[i])
    ensures |r| < |name| ==> IsSeparator(name[|name| - |r| - 1])
    decreases |name|
  {
    if |name| == 0 then ""
    else if IsSeparator(name[|name| - 1]) then ""
    else
      var init := name[..|name| - 1];
      var r := ClassBasename(init) + [name[|name| - 1]];
      assert init[|init| - (|r| - 1)..] + [name[|name| - 1]] == name[|name| - |r|..];
      r
  }

  /** The basename is determined by its defining property: whatever follows
      a namespace ending in a separator (or no namespace at all), provided
      it holds no separator itself. */
  lemma ClassBasenameOf(namespace: string, base: string)
    requires |namespace| == 0 || IsSeparator(namespace[|namespace| - 1])
    requires forall i :: 0 <= i < |base| ==> !IsSeparator(base[i])
    ensures ClassBasename(namespace + base) == base
  {
    var name := namespace + base;
    var r := ClassBasename(name);
    assert forall k :: 0 <= k < |base| ==> name[|namespace| + k] == base[k];
    assert forall k :: 0 <= k < |r| ==> name[|name| - |r| + k] == r[k];
    if 0 < |namespace| {
      assert IsSeparator(name[|namespace| - 1]);
    }
    assert name[|name| - |base|..] == base;
  }
}
