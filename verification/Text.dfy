/** Decimal numerals and substring search: the small pieces of text handling the runtime relies on. */
module Text {
  datatype Option<+T> = None | Some(value: T)

  predicate IsDigit(c: char) {
    '0' <= c <= '9'
  }

  function DigitValue(c: char): (d: nat)
    requires IsDigit(c)
    ensures d < 10
  {
    (c - '0') as int
  }

  function DigitChar(d: nat): (c: char)
    requires d < 10
    ensures IsDigit(c) && DigitValue(c) == d
  {
    '0' + d as char
  }

  predicate AllDigits(s: string) {
    forall i :: 0 <= i < |s| ==> IsDigit(s[i])
  }

  /** The decimal numeral of `n`, without leading zeros. */
  function NatToString(n: nat): (s: string)
    ensures |s| > 0 && AllDigits(s)
  {
    if n < 10 then [DigitChar(n)] else NatToString(n / 10) + [DigitChar(n % 10)]
  }

  /** What counts as a decimal digit when text is read, and its value. Readers of Unicode text know more
      digits than the ten of ASCII. */
  datatype RawDigits = RawDigits(isDigit: char -> bool, value: char -> nat)

  predicate IsAscii(c: char) {
    c < '\U{80}'
  }

  /** Among the ASCII characters the digits are the usual ones. */
  ghost predicate AsciiAsUsual(d: RawDigits) {
    forall c :: IsAscii(c) ==> (d.isDigit(c) <==> IsDigit(c)) && (IsDigit(c) ==> d.value(c) == DigitValue(c))
  }

  function ValueOrZero(c: char): nat {
    if IsDigit(c) then DigitValue(c) else 0
  }

  type Digits = d: RawDigits | AsciiAsUsual(d) ghost witness RawDigits(IsDigit, ValueOrZero)

  /** The number a string of digits denotes; leading zeros are allowed. */
  function ParseNat(d: Digits, s: string): nat {
    if s == "" then 0
    else ParseNat(d, s[..|s| - 1]) * 10 + d.value(s[|s| - 1])
  }

  lemma {:induction false} ParsePrinted(d: Digits, n: nat)
    ensures ParseNat(d, NatToString(n)) == n
  {
    var s := NatToString(n);
    if n < 10 {
      assert s[..|s| - 1] == "";
      assert IsAscii(s[0]);
    } else {
      ParsePrinted(d, n / 10);
      assert s[..|s| - 1] == NatToString(n / 10);
      assert IsAscii(s[|s| - 1]);
    }
  }

  /** How many digits a text begins with. */
  function DigitCount(d: Digits, s: string): (n: nat)
    ensures n <= |s| && forall i :: 0 <= i < n ==> d.isDigit(s[i])
    ensures n < |s| ==> !d.isDigit(s[n])
  {
    if s == "" || !d.isDigit(s[0]) then 0 else 1 + DigitCount(d, s[1..])
  }

  lemma {:induction false} DigitsThenOther(d: Digits, digits: string, rest: string)
    requires AllDigits(digits) && rest != "" && IsAscii(rest[0]) && !IsDigit(rest[0])
    ensures DigitCount(d, digits + rest) == |digits|
  {
    if digits == "" {
      assert digits + rest == rest;
    } else {
      assert (digits + rest)[1..] == digits[1..] + rest;
      assert IsAscii((digits + rest)[0]);
      DigitsThenOther(d, digits[1..], rest);
    }
  }

  lemma NatToStringInjective(m: nat, n: nat)
    requires NatToString(m) == NatToString(n)
    ensures m == n
  {
    var d := RawDigits(IsDigit, ValueOrZero);
    ParsePrinted(d, m);
    ParsePrinted(d, n);
  }

  predicate OccursAt(s: string, pattern: string, i: nat) {
    i + |pattern| <= |s| && s[i..i + |pattern|] == pattern
  }

  /** The least index at which `pattern` occurs in `s` from `start` on. */
  function Find(s: string, pattern: string, start: nat): (r: Option<nat>)
    requires start <= |s|
    ensures r.Some? ==> start <= r.value && OccursAt(s, pattern, r.value)
    ensures r.Some? ==> forall i :: start <= i < r.value ==> !OccursAt(s, pattern, i)
    ensures r.None? ==> forall i :: start <= i <= |s| ==> !OccursAt(s, pattern, i)
    decreases |s| - start
  {
    if OccursAt(s, pattern, start) then Some(start)
    else if start == |s| then None
    else Find(s, pattern, start + 1)
  }
}
