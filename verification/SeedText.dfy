// hayasum's strict seed parser on top of the C library's permissive strtoull.
module SeedText {
  import opened Powers
  import opened OutputLines

  predicate IsDigit(c: char) { '0' <= c <= '9' }

  predicate IsHexDigit(c: char) { IsDigit(c) || 'a' <= c <= 'f' || 'A' <= c <= 'F' }

  predicate IsX(c: char) { c == 'x' || c == 'X' }

  function DigitValue(c: char): nat
    requires IsHexDigit(c)
  {
    if IsDigit(c) then (c - '0') as nat
    else if 'a' <= c <= 'f' then (c - 'a') as nat + 10
    else (c - 'A') as nat + 10
  }

  predicate ValidDigit(c: char, base: nat) { if base == 16 then IsHexDigit(c) else IsDigit(c) }

  // ---- strtoull, section 7.22.1.4 of ISO/IEC 9899:2011 ---------------------------------

  predicate IsSpace(c: char) {
    c == ' ' || c == '\t' || c == '\n' || c == '\r' || c as int == 11 || c as int == 12
  }

  function SkipSpaces(s: CString, i: nat): (j: nat)
    requires i <= |s|
    ensures i <= j <= |s|
    decreases |s| - i
  {
    if i < |s| && IsSpace(s[i]) then SkipSpaces(s, i + 1) else i
  }

  /** One past the last digit of the run that starts at i. */
  function DigitRun(s: CString, i: nat, base: nat): (j: nat)
    requires i <= |s|
    ensures i <= j <= |s|
    ensures forall k :: i <= k < j ==> ValidDigit(s[k], base)
    ensures j < |s| ==> !ValidDigit(s[j], base)
    decreases |s| - i
  {
    if i < |s| && ValidDigit(s[i], base) then DigitRun(s, i + 1, base) else i
  }

  /** The number a digit string denotes. */
  function NumberOf(t: string, base: nat): nat
    requires base == 10 || base == 16
    requires forall k :: 0 <= k < |t| ==> ValidDigit(t[k], base)
  {
    if |t| == 0 then 0
    else
      assert ValidDigit(t[|t| - 1], base);
      base * NumberOf(t[..|t| - 1], base) + DigitValue(t[|t| - 1])
  }

  /** The returned value, the index *end points at, and whether errno is ERANGE. */
  datatype Converted = Converted(value: nat, end: nat, erange: bool)

  lemma RunIsDigits(s: CString, i: nat, j: nat, base: nat)
    requires i <= j <= |s| && forall k :: i <= k < j ==> ValidDigit(s[k], base)
    ensures forall k :: 0 <= k < |s[i..j]| ==> ValidDigit(s[i..j][k], base)
  {
    forall k | 0 <= k < |s[i..j]| ensures ValidDigit(s[i..j][k], base) {
      assert s[i..j][k] == s[i + k];
    }
  }

  function Strtoull(s: CString, base: nat): (r: Converted)
    requires base == 10 || base == 16
    ensures r.end <= |s|
  {
    var i := SkipSpaces(s, 0);
    var negative := At(s, i) == '-';
    var j := if negative || At(s, i) == '+' then i + 1 else i;
    var prefixed := base == 16 && j + 2 < |s| && s[j] == '0' && IsX(s[j + 1]) && IsHexDigit(s[j + 2]);
    var start := if prefixed then j + 2 else j;
    var end := DigitRun(s, start, base);
    if end == start then Converted(0, 0, false)
    else
      RunIsDigits(s, start, end, base);
      var n := NumberOf(s[start..end], base);
      if n >= TWO_64 then Converted(TWO_64 - 1, end, true)
      else Converted(if negative && n > 0 then TWO_64 - n else n, end, false)
  }

  // ---- The seed parser ---------------------------------------------------------------

  predicate Prefixed(s: string) { |s| >= 2 && s[0] == '0' && IsX(s[1]) }

  /** Nonempty decimal digits, or 0x and nonempty hexadecimal digits. */
  predicate IsSeedText(s: string) {
    if Prefixed(s) then |s| > 2 && forall k :: 2 <= k < |s| ==> IsHexDigit(s[k])
    else |s| > 0 && forall k :: 0 <= k < |s| ==> IsDigit(s[k])
  }

  function SeedValue(s: string): nat
    requires IsSeedText(s)
  {
    assert Prefixed(s) ==> forall k :: 0 <= k < |s[2..]| ==> s[2..][k] == s[k + 2];
    if Prefixed(s) then NumberOf(s[2..], 16) else NumberOf(s, 10)
  }

  /** Accepts exactly the seed texts below 2^64, with the value they denote. */
  method ParseU64(s: CString) returns (ok: bool, v: nat)
    ensures ok <==> IsSeedText(s) && SeedValue(s) < TWO_64
    ensures ok ==> v == SeedValue(s)
  {
    hide Strtoull, NumberOf;
    var digits, base := s, 10;
    if At(s, 0) == '0' && IsX(At(s, 1)) {
      base := 16;
      digits := s[2..];
      if !IsHexDigit(At(digits, 0)) { return false, 0; }
      if At(digits, 0) == '0' && IsX(At(digits, 1)) {
        assert !IsHexDigit(s[3]);
        return false, 0;
      }
    } else if !IsDigit(At(digits, 0)) {
      return false, 0;
    }
    var r := Strtoull(digits, base);
    StrtoullOnDigits(digits, base);
    if r.erange || r.end == 0 || At(digits, r.end) != '\0' { return false, 0; }
    return true, r.value;
  }

  /** On text that starts with a digit and has no prefix of its own, the library has nothing to skip. */
  lemma StrtoullOnDigits(s: CString, base: nat)
    requires base == 10 || base == 16
    requires |s| > 0 && ValidDigit(s[0], base)
    requires base == 16 ==> !(s[0] == '0' && |s| > 1 && IsX(s[1]))
    ensures var r := Strtoull(s, base);
      r.end == DigitRun(s, 0, base) > 0 &&
      (r.end == |s| <==> forall k :: 0 <= k < |s| ==> ValidDigit(s[k], base)) &&
      (r.end == |s| ==> (r.erange <==> NumberOf(s, base) >= TWO_64) && (!r.erange ==> r.value == NumberOf(s, base)))
  {
    hide NumberOf;
    assert SkipSpaces(s, 0) == 0;
    assert s[0..|s|] == s;
  }

  // ---- Printing seeds ----------------------------------------------------------------

  /** n in decimal. */
  function Decimal(n: nat): (t: string)
    ensures |t| > 0 && forall k :: 0 <= k < |t| ==> IsDigit(t[k])
  {
    if n < 10 then ["0123456789"[n]] else Decimal(n / 10) + ["0123456789"[n % 10]]
  }

  lemma DecimalDigit(d: nat)
    requires d < 10
    ensures IsDigit("0123456789"[d]) && DigitValue("0123456789"[d]) == d
  {
    assert "0123456789"[d] == '0' + d as char;
  }

  lemma {:induction false} DecimalRoundTrip(n: nat)
    ensures NumberOf(Decimal(n), 10) == n
  {
    var t := Decimal(n);
    DecimalDigit(n % 10);
    if n < 10 {
      assert t[..0] == "";
    } else {
      DecimalRoundTrip(n / 10);
      assert t[..|t| - 1] == Decimal(n / 10);
    }
  }

  lemma {:induction false} HexDigits(n: nat, k: nat)
    ensures forall i :: 0 <= i < k ==> ValidDigit(Hex(n, k)[i], 16)
  {
    if k > 0 {
      HexDigits(n / 16, k - 1);
      HexDigitNumber(n % 16);
    }
  }

  lemma NumberSnoc(t: string, c: char)
    requires forall i :: 0 <= i < |t| ==> ValidDigit(t[i], 16)
    requires ValidDigit(c, 16)
    ensures forall i :: 0 <= i < |t + [c]| ==> ValidDigit((t + [c])[i], 16)
    ensures NumberOf(t + [c], 16) == 16 * NumberOf(t, 16) + DigitValue(c)
  {
    assert (t + [c])[..|t|] == t;
  }

  lemma {:induction false} HexNumber(n: nat, k: nat)
    requires n < Pow16(k)
    ensures forall i :: 0 <= i < k ==> ValidDigit(Hex(n, k)[i], 16)
    ensures NumberOf(Hex(n, k), 16) == n
  {
    HexDigits(n, k);
    if k > 0 {
      HexDigits(n / 16, k - 1);
      HexNumber(n / 16, k - 1);
      HexDigitNumber(n % 16);
      hide NumberOf, ValidDigit, HexDigit, DigitValue;
      NumberSnoc(Hex(n / 16, k - 1), HexDigit(n % 16));
    }
  }

  lemma HexDigitNumber(d: nat)
    requires d < 16
    ensures IsHexDigit(HexDigit(d)) && DigitValue(HexDigit(d)) == d
  {
    if d < 10 {
      assert HexDigit(d) == '0' + d as char;
    } else {
      assert HexDigit(d) == 'a' + (d - 10) as char;
    }
  }

  /** A seed as text, in either base. */
  function SeedString(n: nat, hex: bool): (t: CString)
    requires n < TWO_64
    ensures |t| > 0
  {
    if hex then "0x" + Hex(n, 16) else Decimal(n)
  }

  lemma HexTextParses(n: nat)
    requires n < TWO_64
    ensures var t := "0x" + Hex(n, 16); IsSeedText(t) && SeedValue(t) == n
  {
    SixteenDigits();
    HexNumber(n, 16);
    hide Hex, NumberOf, Pow16;
    var t := "0x" + Hex(n, 16);
    assert t[2..] == Hex(n, 16);
    assert forall k :: 2 <= k < |t| ==> t[k] == Hex(n, 16)[k - 2];
  }

  lemma SeedStringParses(n: nat, hex: bool)
    requires n < TWO_64
    ensures IsSeedText(SeedString(n, hex)) && SeedValue(SeedString(n, hex)) == n
  {
    hide Hex, NumberOf, Decimal;
    if hex {
      HexTextParses(n);
    } else {
      var t := Decimal(n);
      DecimalRoundTrip(n);
      assert |t| > 1 ==> IsDigit(t[1]);
    }
  }

  // ---- Capital letters, leading zeros, and what is refused -------------------------------

  /** The k lowest hexadecimal digits of n in capitals. */
  function CapitalHex(n: nat, k: nat): (t: string)
    ensures |t| == k
  {
    if k == 0 then "" else CapitalHex(n / 16, k - 1) + ["0123456789ABCDEF"[n % 16]]
  }

  lemma CapitalDigit(d: nat)
    requires d < 16
    ensures IsHexDigit("0123456789ABCDEF"[d]) && DigitValue("0123456789ABCDEF"[d]) == d
  {
    if d < 10 {
      assert "0123456789ABCDEF"[d] == '0' + d as char;
    } else {
      assert "0123456789ABCDEF"[d] == 'A' + (d - 10) as char;
    }
  }

  lemma {:induction false} CapitalNumber(n: nat, k: nat)
    requires n < Pow16(k)
    ensures forall i :: 0 <= i < k ==> ValidDigit(CapitalHex(n, k)[i], 16)
    ensures NumberOf(CapitalHex(n, k), 16) == n
  {
    if k > 0 {
      CapitalNumber(n / 16, k - 1);
      CapitalDigit(n % 16);
      hide NumberOf, ValidDigit, DigitValue;
      NumberSnoc(CapitalHex(n / 16, k - 1), "0123456789ABCDEF"[n % 16]);
    }
  }

  /** Hexadecimal seeds parse in capitals and in small letters, after either x, at any width that holds them. */
  lemma HexSeedParses(n: nat, k: nat, capital: bool, x: char)
    requires 0 < k && n < Pow16(k) && (x == 'x' || x == 'X')
    ensures var s := ['0', x] + (if capital then CapitalHex(n, k) else Hex(n, k));
      IsSeedText(s) && SeedValue(s) == n
  {
    hide Hex, CapitalHex, NumberOf, IsHexDigit, Pow16;
    var t := if capital then CapitalHex(n, k) else Hex(n, k);
    if capital { CapitalNumber(n, k); } else { HexNumber(n, k); }
    var s := ['0', x] + t;
    assert s[2..] == t;
    assert forall i :: 2 <= i < |s| ==> s[i] == t[i - 2] && ValidDigit(t[i - 2], 16);
  }

  function Zeros(k: nat): (t: string)
    ensures |t| == k && forall i :: 0 <= i < k ==> t[i] == '0'
  {
    seq(k, i => '0')
  }

  lemma {:induction false} LeadingZeros(k: nat, t: string)
    requires forall i :: 0 <= i < |t| ==> IsDigit(t[i])
    ensures forall i :: 0 <= i < k + |t| ==> IsDigit((Zeros(k) + t)[i])
    ensures NumberOf(Zeros(k) + t, 10) == NumberOf(t, 10)
    decreases k + |t|
  {
    var s := Zeros(k) + t;
    if |t| > 0 {
      LeadingZeros(k, t[..|t| - 1]);
      assert s[..|s| - 1] == Zeros(k) + t[..|t| - 1];
    } else if k > 0 {
      LeadingZeros(k - 1, t);
      assert s[..|s| - 1] == Zeros(k - 1) + t;
    }
  }

  /** Leading zeros do not make a decimal seed octal, and any number is read, those from 2^64 on to be refused. */
  lemma DecimalSeedParses(n: nat, zeros: nat)
    ensures var s := Zeros(zeros) + Decimal(n); IsSeedText(s) && SeedValue(s) == n
  {
    hide NumberOf, Decimal;
    DecimalRoundTrip(n);
    LeadingZeros(zeros, Decimal(n));
    var s := Zeros(zeros) + Decimal(n);
    assert |s| > 1 ==> IsDigit(s[1]);
  }

  /** A sign, a space, a second or an empty prefix, a digit of the wrong base or nothing at all is refused. */
  lemma RefusedTexts()
    ensures !IsSeedText("") && !IsSeedText("0x") && !IsSeedText("0X") && !IsSeedText("0x0x10") && !IsSeedText("0X0x1f")
    ensures !IsSeedText("-1") && !IsSeedText("+1") && !IsSeedText(" 1") && !IsSeedText("1x") && !IsSeedText("0x-1")
    ensures !IsSeedText("deadbeef") && !IsSeedText("zzz") && !IsSeedText("a") && !IsSeedText("0xg") && !IsSeedText("0xG")
  {
    assert "-1"[0] == '-' && "+1"[0] == '+' && " 1"[0] == ' ' && "1x"[1] == 'x' && "0x-1"[2] == '-';
    assert "0x0x10"[3] == 'x' && "0X0x1f"[3] == 'x' && "deadbeef"[0] == 'd' && "zzz"[0] == 'z' && "a"[0] == 'a';
    assert "0xg"[2] == 'g' && "0xG"[2] == 'G';
  }

  /** Left to itself the library takes a sign, minus one as 2^64 - 1. */
  lemma LibraryTakesSigns()
    ensures Strtoull("-1", 10) == Converted(0xFFFF_FFFF_FFFF_FFFF, 2, false)
    ensures Strtoull("+1", 10) == Converted(1, 2, false)
  {
    assert "-1"[1..2] == "1" && "+1"[1..2] == "1";
    assert "1"[..0] == "" && NumberOf("1", 10) == 1;
  }

  /** And spaces before the number, and a prefix of its own. */
  lemma LibraryTakesMore()
    ensures Strtoull(" 1", 10) == Converted(1, 2, false)
    ensures Strtoull("0x1", 16) == Converted(1, 3, false)
  {
    assert " 1"[1..2] == "1" && "0x1"[2..3] == "1";
    assert "1"[..0] == "" && NumberOf("1", 10) == 1 && NumberOf("1", 16) == 1;
  }
}
