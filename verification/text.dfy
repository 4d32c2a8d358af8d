/** String helpers the screens rely on: JavaScript `String.prototype.trim`,
    the decimal text of an integer (`String(n)` / `n.toString()`), and
    `padStart(2, '0')`. */
module Text {
  import opened Values

  /** ECMAScript WhiteSpace and LineTerminator code points, the set `trim`
      removes: TAB, VT, FF, ZWNBSP, the Zs space separators, LF, CR, LS, PS. */
  predicate IsSpace(c: char) {
    || c == '\U{9}' || c == '\U{B}' || c == '\U{C}' || c == '\U{FEFF}'
    || c == ' ' || c == '\U{A0}' || c == '\U{1680}'
    || ('\U{2000}' <= c <= '\U{200A}') || c == '\U{202F}' || c == '\U{205F}' || c == '\U{3000}'
    || c == '\U{A}' || c == '\U{D}' || c == '\U{2028}' || c == '\U{2029}'
  }

  /** A string JavaScript considers blank after trimming. */
  predicate IsBlank(s: string) {
    forall i :: 0 <= i < |s| ==> IsSpace(s[i])
  }

  /** The index of the first non-space character of `s` at or after `i`,
      or |s| when there is none. */
  function SkipSpaces(s: string, i: nat): (k: nat)
    requires i <= |s|
    ensures i <= k <= |s|
    ensures forall j :: i <= j < k ==> IsSpace(s[j])
    ensures k < |s| ==> !IsSpace(s[k])
    decreases |s| - i
  {
    if i == |s| || !IsSpace(s[i]) then i else SkipSpaces(s, i + 1)
  }

  /** The end of the text once the white space before index `j` is dropped,
      never going below `lo`. */
  function SkipSpacesBack(s: string, lo: nat, j: nat): (e: nat)
    requires lo <= j <= |s|
    ensures lo <= e <= j
    ensures forall t :: e <= t < j ==> IsSpace(s[t])
    ensures e > lo ==> !IsSpace(s[e - 1])
    decreases j
  {
    if j == lo || !IsSpace(s[j - 1]) then j else SkipSpacesBack(s, lo, j - 1)
  }

  /** `s.trim()`: the infix of `s` from its first to its last non-space
      character, with neither leading nor trailing white space, and empty
      exactly when `s` is blank. */
  function Trim(s: string): (r: string)
    ensures |r| <= |s|
    ensures r == [] || (!IsSpace(r[0]) && !IsSpace(r[|r| - 1]))
    ensures r == [] <==> IsBlank(s)
  {
    var k := SkipSpaces(s, 0);
    var e := SkipSpacesBack(s, k, |s|);
    assert e > k ==> !IsSpace(s[k]) && !IsBlank(s);
    s[k..e]
  }

  /** Trimming is idempotent. */
  lemma TrimIdempotent(s: string)
    ensures Trim(Trim(s)) == Trim(s)
  {
    var t := Trim(s);
    assert SkipSpaces(t, 0) == 0;
    assert SkipSpacesBack(t, 0, |t|) == |t|;
    assert t[0..|t|] == t;
  }

  /** Trimming keeps every character between the first and last non-space
      ones: `s` is the trimmed text framed by blank strings. */
  lemma TrimFrames(s: string)
    ensures var k := SkipSpaces(s, 0);
            && k + |Trim(s)| <= |s|
            && s[k..k + |Trim(s)|] == Trim(s)
            && IsBlank(s[..k]) && IsBlank(s[k + |Trim(s)|..])
  {
    var k := SkipSpaces(s, 0);
    var e := SkipSpacesBack(s, k, |s|);
    assert Trim(s) == s[k..e];
    assert forall j :: 0 <= j < k ==> s[..k][j] == s[j];
    assert forall j :: 0 <= j < |s| - e ==> s[e..][j] == s[e + j];
  }

  // ---------------------------------------------------------------------
  // Decimal text of integers.

  predicate IsDigit(c: char) {
    '0' <= c <= '9'
  }

  predicate AllDigits(s: string) {
    forall i :: 0 <= i < |s| ==> IsDigit(s[i])
  }

  function DigitChar(d: nat): (c: char)
    requires d < 10
    ensures IsDigit(c)
  {
    (('0' as int) + d) as char
  }

  /** Value of a string of decimal digits, most significant first. */
  function DigitsValue(s: string): nat
    requires AllDigits(s)
  {
    if s == [] then 0
    else 10 * DigitsValue(s[..|s| - 1]) + ((s[|s| - 1] as int) - ('0' as int))
  }

  /** The shortest decimal digit string of a natural number: digits only,
      no leading zero except for "0" itself. */
  function NatToDecimal(n: nat): (r: string)
    ensures |r| >= 1 && AllDigits(r)
    ensures r[0] == '0' ==> r == "0"
  {
    if n < 10 then [DigitChar(n)]
    else
      var p := NatToDecimal(n / 10);
      var r := p + [DigitChar(n % 10)];
      assert r[0] == p[0];
      r
  }

  /** `String(n)` for an integer-valued JavaScript number (below 1e21, where
      JavaScript switches to exponent notation): a minus sign for negative
      numbers followed by the shortest decimal digits. */
  function IntToDecimal(n: int): (r: string)
    ensures |r| >= 1
    ensures n < 0 <==> r[0] == '-'
  {
    if n < 0 then "-" + NatToDecimal(-n) else NatToDecimal(n)
  }

  /** Reads back the text `IntToDecimal` writes: an optional minus sign and a
      non-empty run of digits; anything else is not a decimal integer. */
  function ParseDecimal(s: string): Option<int>
  {
    if |s| >= 2 && s[0] == '-' && AllDigits(s[1..]) then Some(0 - DigitsValue(s[1..]))
    else if |s| >= 1 && AllDigits(s) then Some(DigitsValue(s))
    else None
  }

  lemma {:induction false} NatToDecimalValue(n: nat)
    ensures DigitsValue(NatToDecimal(n)) == n
    decreases n
  {
    if n >= 10 {
      var p := NatToDecimal(n / 10);
      var r := p + [DigitChar(n % 10)];
      assert r[..|r| - 1] == p;
      NatToDecimalValue(n / 10);
    }
  }

  /** The decimal text of every integer reads back as that integer. */
  lemma DecimalRoundTrip(n: int)
    ensures ParseDecimal(IntToDecimal(n)) == Some(n)
  {
    if n < 0 {
      var d := NatToDecimal(-n);
      assert IntToDecimal(n)[1..] == d;
      NatToDecimalValue(-n);
    } else {
      NatToDecimalValue(n);
    }
  }

  /** Distinct integers have distinct decimal texts. */
  lemma DecimalInjective(m: int, n: int)
    requires IntToDecimal(m) == IntToDecimal(n)
    ensures m == n
  {
    DecimalRoundTrip(m);
    DecimalRoundTrip(n);
  }

  /** One-digit numbers have one digit, two-digit numbers two, and
      four-digit numbers four. */
  lemma NatToDecimalLength(n: nat)
    ensures n < 10 ==> |NatToDecimal(n)| == 1
    ensures 10 <= n < 100 ==> |NatToDecimal(n)| == 2
    ensures 1000 <= n < 10000 ==> |NatToDecimal(n)| == 4
  {
    if 1000 <= n < 10000 {
      assert |NatToDecimal(n / 10 / 10)| == 2;
      assert |NatToDecimal(n / 10)| == 3;
    }
  }

  /** A leading zero does not change the value of a digit string. */
  lemma {:induction false} LeadingZeroValue(s: string)
    requires AllDigits(s)
    ensures AllDigits("0" + s) && DigitsValue("0" + s) == DigitsValue(s)
    decreases |s|
  {
    var t := "0" + s;
    if s != [] {
      assert t[..|t| - 1] == "0" + s[..|s| - 1];
      LeadingZeroValue(s[..|s| - 1]);
    } else {
      assert t[..|t| - 1] == [];
    }
  }

  /** `s.padStart(2, '0')`: zeros are prepended until the text is two long;
      longer text is returned unchanged (never truncated). */
  function PadStart2(s: string): (r: string)
    ensures |r| == if |s| >= 2 then |s| else 2
    ensures r[|r| - |s|..] == s
    ensures forall i :: 0 <= i < |r| - |s| ==> r[i] == '0'
  {
    if |s| >= 2 then s else seq(2 - |s|, _ => '0') + s
  }

  /** Padding a digit string with zeros keeps it a digit string of the same
      value. */
  lemma PadStart2Value(s: string)
    requires AllDigits(s)
    ensures AllDigits(PadStart2(s)) && DigitsValue(PadStart2(s)) == DigitsValue(s)
  {
    if |s| == 1 {
      assert PadStart2(s) == "0" + s;
      LeadingZeroValue(s);
    } else if |s| == 0 {
      assert PadStart2(s) == "0" + "0";
      LeadingZeroValue("0");
      LeadingZeroValue("");
    }
  }
}
