/**
 * The few JavaScript string operations the ledger code relies on, written out
 * with the semantics of the ECMAScript built-ins: truthiness of an optional
 * string, `startsWith`, ASCII case mapping, `trim`, radix-less `parseInt`,
 * `Number.prototype.toString` for non-negative integers, and string `>=`.
 */
module JsText {
  import opened Wrappers

  /** A query parameter or JSON string that JavaScript treats as true: present and non-empty. */
  predicate Truthy(p: Option<string>) {
    p.Some? && p.value != ""
  }

  predicate StartsWith(s: string, prefix: string) {
    |prefix| <= |s| && s[..|prefix|] == prefix
  }

  predicate IsUpperAscii(c: char) { 'A' <= c <= 'Z' }

  predicate IsLowerAscii(c: char) { 'a' <= c <= 'z' }

  function LowerChar(c: char): (d: char)
    ensures !IsUpperAscii(d)
    ensures IsUpperAscii(c) ==> IsLowerAscii(d) && d as int == c as int + 32
    ensures !IsUpperAscii(c) ==> d == c
  {
    if IsUpperAscii(c) then (c as int + 32) as char else c
  }

  function UpperChar(c: char): (d: char)
    ensures !IsLowerAscii(d)
    ensures IsLowerAscii(c) ==> IsUpperAscii(d) && d as int == c as int - 32
    ensures !IsLowerAscii(c) ==> d == c
  {
    if IsLowerAscii(c) then (c as int - 32) as char else c
  }

  /** `toLowerCase`, restricted to the ASCII letters. */
  function ToLower(s: string): (r: string)
    ensures |r| == |s|
    ensures forall i :: 0 <= i < |r| ==> !IsUpperAscii(r[i])
    ensures forall i :: 0 <= i < |r| && !IsUpperAscii(s[i]) ==> r[i] == s[i]
  {
    seq(|s|, i requires 0 <= i < |s| => LowerChar(s[i]))
  }

  /** The WhiteSpace and LineTerminator code points that `trim` and `parseInt` skip. */
  predicate IsSpace(c: char) {
    || c == ' ' || c == '\t' || c == '\n' || c == '\r'
    || c == '\U{000B}' || c == '\U{000C}' || c == '\U{00A0}' || c == '\U{FEFF}'
    || c == '\U{1680}' || ('\U{2000}' <= c <= '\U{200A}')
    || c == '\U{2028}' || c == '\U{2029}' || c == '\U{202F}' || c == '\U{205F}' || c == '\U{3000}'
  }

  /** Drops leading white space: what remains is a suffix of `s` that does not start with a space. */
  function TrimStart(s: string): (r: string)
    ensures |r| <= |s| && r == s[|s| - |r|..]
    ensures r == [] || !IsSpace(r[0])
  {
    if s != [] && IsSpace(s[0]) then TrimStart(s[1..]) else s
  }

  /** Drops trailing white space: what remains is a prefix of `s` that does not end with a space. */
  function TrimEnd(s: string): (r: string)
    ensures |r| <= |s| && r == s[..|r|]
    ensures r == [] || !IsSpace(r[|r| - 1])
  {
    if s != [] && IsSpace(s[|s| - 1]) then TrimEnd(s[..|s| - 1]) else s
  }

  /** `trim`: the slice of `s` left between its leading and its trailing white space. */
  function Trim(s: string): (r: string)
    ensures r == [] || (!IsSpace(r[0]) && !IsSpace(r[|r| - 1]))
    ensures var k := |s| - |TrimStart(s)|; k + |r| <= |s| && r == s[k..k + |r|]
  {
    TrimEnd(TrimStart(s))
  }

  /** Only white space is dropped before what `TrimStart` keeps. */
  lemma {:induction false} TrimStartDropsSpace(s: string)
    ensures forall i :: 0 <= i < |s| - |TrimStart(s)| ==> IsSpace(s[i])
  {
    if s != [] && IsSpace(s[0]) {
      TrimStartDropsSpace(s[1..]);
      assert forall i :: 1 <= i < |s| ==> s[i] == s[1..][i - 1];
    }
  }

  /** Only white space is dropped after what `TrimEnd` keeps. */
  lemma {:induction false} TrimEndDropsSpace(s: string)
    ensures forall i :: |TrimEnd(s)| <= i < |s| ==> IsSpace(s[i])
  {
    if s != [] && IsSpace(s[|s| - 1]) {
      TrimEndDropsSpace(s[..|s| - 1]);
    }
  }

  /**
   * `trim` drops only white space: everything before the slice it keeps and
   * everything after it is white space.
   */
  lemma TrimDropsOnlySpace(s: string)
    ensures var k := |s| - |TrimStart(s)|;
      && (forall i :: 0 <= i < k ==> IsSpace(s[i]))
      && (forall i :: k + |Trim(s)| <= i < |s| ==> IsSpace(s[i]))
  {
    var t := TrimStart(s);
    var k := |s| - |t|;
    TrimStartDropsSpace(s);
    TrimEndDropsSpace(t);
    forall i | k + |Trim(s)| <= i < |s| ensures IsSpace(s[i]) {
      assert s[i] == t[i - k];
    }
  }

  predicate IsDigit(c: char) { '0' <= c <= '9' }

  /** A digit of radix 10 or 16, as `parseInt` accepts them. */
  predicate IsRadixDigit(c: char, radix: nat) {
    if radix == 16 then IsDigit(c) || ('a' <= c <= 'f') || ('A' <= c <= 'F')
    else IsDigit(c)
  }

  function RadixDigitValue(c: char, radix: nat): (v: nat)
    requires IsRadixDigit(c, radix)
    ensures radix == 16 ==> v < 16
    ensures radix != 16 ==> v < 10
  {
    if IsDigit(c) then c as int - '0' as int
    else if 'a' <= c <= 'f' then c as int - 'a' as int + 10
    else c as int - 'A' as int + 10
  }

  function DigitChar(d: nat): (c: char)
    requires d < 10
    ensures IsDigit(c) && RadixDigitValue(c, 10) == d
  {
    ('0' as int + d) as char
  }

  /** The longest prefix of `s` made of digits of the radix. */
  function DigitPrefix(s: string, radix: nat): (z: string)
    ensures |z| <= |s| && z == s[..|z|]
    ensures forall i :: 0 <= i < |z| ==> IsRadixDigit(z[i], radix)
    ensures |z| < |s| ==> !IsRadixDigit(s[|z|], radix)
  {
    if s != [] && IsRadixDigit(s[0], radix) then [s[0]] + DigitPrefix(s[1..], radix) else []
  }

  /** The value of a digit string, most significant digit first. */
  function DigitsValue(z: string, radix: nat): nat
    requires forall i :: 0 <= i < |z| ==> IsRadixDigit(z[i], radix)
  {
    if z == [] then 0
    else
      var prefix := z[..|z| - 1];
      assert forall i :: 0 <= i < |prefix| ==> prefix[i] == z[i];
      var high := DigitsValue(prefix, radix);
      ProductOfNats(high, radix);
      high * radix + RadixDigitValue(z[|z| - 1], radix)
  }

  lemma ProductOfNats(a: nat, b: nat)
    ensures a * b >= 0
  {
  }

  predicate StartsWithMinus(t: string) { t != [] && t[0] == '-' }

  /** The text after an optional leading sign. */
  function Unsigned(t: string): string {
    if t != [] && (t[0] == '-' || t[0] == '+') then t[1..] else t
  }

  predicate IsHexPrefixed(u: string) {
    |u| >= 2 && u[0] == '0' && (u[1] == 'x' || u[1] == 'X')
  }

  /** A digit opens `u`: a hexadecimal digit after `0x`, a decimal digit otherwise. */
  predicate DigitOpens(u: string) {
    if IsHexPrefixed(u) then |u| > 2 && IsRadixDigit(u[2], 16)
    else u != [] && IsDigit(u[0])
  }

  /** A digit follows the leading white space, the optional sign and the optional `0x`. */
  predicate HasLeadingDigit(s: string) {
    DigitOpens(Unsigned(TrimStart(s)))
  }

  /** The unsigned number `parseInt` reads: the longest digit prefix, in radix 16 after `0x`. */
  function ParseUnsigned(u: string): (r: Option<nat>)
    ensures r.None? <==> !DigitOpens(u)
  {
    var hex := IsHexPrefixed(u);
    var radix := if hex then 16 else 10;
    var z := DigitPrefix(if hex then u[2..] else u, radix);
    if z == [] then None else Some(DigitsValue(z, radix))
  }

  /**
   * `parseInt(s)` with no radix argument: skip leading white space, take an
   * optional sign, switch to radix 16 after a `0x`/`0X` prefix, and read the
   * longest digit prefix; no digits at all is NaN (`None`).
   */
  function ParseInt(s: string): (r: Option<int>)
    ensures r.None? <==> !HasLeadingDigit(s)
    ensures r.Some? && !StartsWithMinus(TrimStart(s)) ==> r.value >= 0
    ensures r.Some? && StartsWithMinus(TrimStart(s)) ==> r.value <= 0
  {
    var t := TrimStart(s);
    match ParseUnsigned(Unsigned(t))
    case None => None
    case Some(v) =>
      var n: int := if StartsWithMinus(t) then -(v as int) else v;
      Some(n)
  }

  /** `n.toString()` for a non-negative integer `n`. */
  function DecimalString(n: nat): (r: string)
    ensures r != [] && forall i :: 0 <= i < |r| ==> IsDigit(r[i])
    ensures (r[0] == '0') == (n == 0)
    ensures n < 10 ==> |r| == 1
    ensures DigitsValue(r, 10) == n
  {
    if n < 10 then [DigitChar(n)]
    else
      var r := DecimalString(n / 10) + [DigitChar(n % 10)];
      assert r[..|r| - 1] == DecimalString(n / 10);
      r
  }

  lemma {:induction false} DigitPrefixOfDigits(s: string, radix: nat)
    requires forall i :: 0 <= i < |s| ==> IsRadixDigit(s[i], radix)
    ensures DigitPrefix(s, radix) == s
  {
    if s != [] {
      DigitPrefixOfDigits(s[1..], radix);
    }
  }

  /** Round trip: `parseInt` reads back what `toString` wrote. */
  lemma {:induction false} ParseIntOfDecimal(n: nat)
    ensures ParseInt(DecimalString(n)) == Some(n)
  {
    var r := DecimalString(n);
    assert !IsSpace(r[0]);
    assert TrimStart(r) == r;
    DigitPrefixOfDigits(r, 10);
  }

  /** JavaScript's `a >= b` on strings: lexicographic order of code points. */
  predicate StringAtLeast(a: string, b: string)
  {
    if b == [] then true
    else if a == [] then false
    else if a[0] != b[0] then a[0] > b[0]
    else StringAtLeast(a[1..], b[1..])
  }

  /** `parseInt('0')`, the fallback of `parseInt(x || '0')`, is 0. */
  lemma ParseIntOfZero()
    ensures ParseInt("0") == Some(0)
  {
    assert DecimalString(0) == "0";
    ParseIntOfDecimal(0);
  }
}
