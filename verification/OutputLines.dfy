// hayasum's output: one line per input, names escaped so that a line always parses back.
module OutputLines {
  import opened Powers

  /** The text of a C string; reading at its end yields the terminator. */
  type CString = s: string | '\0' !in s

  function At(s: CString, i: nat): char
    requires i <= |s|
  {
    if i < |s| then s[i] else '\0'
  }

  predicate Special(c: char) { c == '\\' || c == '\n' || c == '\r' }

  function EscapeChar(c: char): string {
    if c == '\\' then "\\\\" else if c == '\n' then "\\n" else if c == '\r' then "\\r" else [c]
  }

  function Escape(s: string): string {
    if |s| == 0 then "" else Escape(s[..|s| - 1]) + EscapeChar(s[|s| - 1])
  }

  /** Reads an escaped field back; a backslash takes the next character with it. */
  function Unescape(t: string): string {
    if |t| == 0 then ""
    else if t[0] != '\\' || |t| == 1 then [t[0]] + Unescape(t[1..])
    else [if t[1] == 'n' then '\n' else if t[1] == 'r' then '\r' else t[1]] + Unescape(t[2..])
  }

  // ---- Hexadecimal words -------------------------------------------------------------

  function HexDigit(d: nat): char
    requires d < 16
  {
    "0123456789abcdef"[d]
  }

  function HexDigitValue(c: char): nat {
    if '0' <= c <= '9' then (c - '0') as nat else if 'a' <= c <= 'f' then (c - 'a') as nat + 10 else 0
  }

  /** The k lowest hexadecimal digits of n, most significant first. */
  function Hex(n: nat, k: nat): (s: string)
    ensures |s| == k
    ensures forall i :: 0 <= i < k ==> '0' <= s[i] <= '9' || 'a' <= s[i] <= 'f'
  {
    if k == 0 then "" else Hex(n / 16, k - 1) + [HexDigit(n % 16)]
  }

  function HexValue(s: string): nat {
    if |s| == 0 then 0 else 16 * HexValue(s[..|s| - 1]) + HexDigitValue(s[|s| - 1])
  }

  function Pow16(k: nat): nat { if k == 0 then 1 else 16 * Pow16(k - 1) }

  lemma {:induction false} HexRoundTrip(n: nat, k: nat)
    requires n < Pow16(k)
    ensures HexValue(Hex(n, k)) == n
  {
    if k > 0 {
      HexRoundTrip(n / 16, k - 1);
      var s := Hex(n, k);
      assert s[..k - 1] == Hex(n / 16, k - 1);
      DigitRoundTrip(n % 16);
    }
  }

  lemma DigitRoundTrip(d: nat)
    requires d < 16
    ensures HexDigitValue(HexDigit(d)) == d
  {
    if d < 10 {
      assert HexDigit(d) == '0' + d as char;
    } else {
      assert HexDigit(d) == 'a' + (d - 10) as char;
    }
  }

  // ---- The line ----------------------------------------------------------------------

  /** The backslash that flags a line whose field is not the name itself. */
  function Flag(name: string): string {
    if Escape(name) != name then "\\" else ""
  }

  function DigestText(lo: nat, hi: nat, bits: int): string {
    if bits == 128 then Hex(hi, 16) + Hex(lo, 16) else Hex(lo, 16)
  }

  /** What one call prints. */
  function Line(lo: nat, hi: nat, bits: int, name: string): string {
    Flag(name) + DigestText(lo, hi, bits) + "  " + Escape(name) + "\n"
  }

  class Output {
    var text: string

    constructor ()
      ensures text == ""
    {
      text := "";
    }

    method Puts(s: string)
      modifies this
      ensures text == old(text) + s
    {
      text := text + s;
    }

    method WriteEscapedChar(c: char)
      modifies this
      ensures text == old(text) + EscapeChar(c)
    {
      match c {
        case '\\' => Puts("\\\\");
        case '\n' => Puts("\\n");
        case '\r' => Puts("\\r");
        case c => Puts([c]);
      }
    }

    method WriteEscaped(s: CString)
      modifies this
      ensures text == old(text) + Escape(s)
    {
      hide EscapeChar;
      var i := 0;
      while At(s, i) != '\0'
        invariant 0 <= i <= |s|
        invariant text == old(text) + Escape(s[..i])
        decreases |s| - i
      {
        assert s[..i + 1][..i] == s[..i];
        WriteEscapedChar(s[i]);
        i := i + 1;
      }
      assert s[..i] == s;
    }

    /** Prints exactly one line. */
    method PrintDigest(lo: nat, hi: nat, bits: int, name: CString)
      requires lo < TWO_64 && hi < TWO_64
      modifies this
      ensures text == old(text) + Line(lo, hi, bits, name)
    {
      hide Hex, Escape;
      ghost var before := text;
      var special := LabelNeedsEscape(name);
      if special { Puts("\\"); }
      assert text == before + Flag(name);
      if bits == 128 {
        Puts(Hex(hi, 16) + Hex(lo, 16) + "  ");
      } else {
        Puts(Hex(lo, 16) + "  ");
      }
      assert text == before + Flag(name) + (DigestText(lo, hi, bits) + "  ");
      WriteEscaped(name);
      Puts("\n");
      JoinLine(before, Flag(name), DigestText(lo, hi, bits), Escape(name));
    }
  }

  lemma JoinLine(t: string, flag: string, words: string, field: string)
    ensures t + flag + (words + "  ") + field + "\n" == t + (flag + words + "  " + field + "\n")
  {
  }

  method LabelNeedsEscape(s: CString) returns (b: bool)
    ensures b <==> exists i :: 0 <= i < |s| && Special(s[i])
    ensures b <==> Escape(s) != s
  {
    EscapeChanges(s);
    var i := 0;
    while At(s, i) != '\0'
      invariant 0 <= i <= |s|
      invariant forall k :: 0 <= k < i ==> !Special(s[k])
      decreases |s| - i
    {
      if At(s, i) == '\\' || At(s, i) == '\n' || At(s, i) == '\r' {
        assert Special(s[i]);
        return true;
      }
      i := i + 1;
    }
    return false;
  }

  /** Escaping never shortens, and lengthens when something in the text is special. */
  lemma {:induction false} EscapeGrows(s: string)
    ensures |Escape(s)| >= |s|
    ensures (exists i :: 0 <= i < |s| && Special(s[i])) ==> |Escape(s)| > |s|
  {
    if |s| > 0 {
      var t := s[..|s| - 1];
      EscapeGrows(t);
      if i :| 0 <= i < |s| && Special(s[i]) {
        assert i < |t| ==> Special(t[i]);
      }
    }
  }

  lemma {:induction false} EscapePlain(s: string)
    requires forall i :: 0 <= i < |s| ==> !Special(s[i])
    ensures Escape(s) == s
  {
    if |s| > 0 {
      EscapePlain(s[..|s| - 1]);
    }
  }

  /** Escaping changes the text exactly when something in it is special. */
  lemma EscapeChanges(s: string)
    ensures Escape(s) == s <==> forall i :: 0 <= i < |s| ==> !Special(s[i])
  {
    hide Escape, Special;
    EscapeGrows(s);
    if forall i :: 0 <= i < |s| ==> !Special(s[i]) {
      EscapePlain(s);
    }
  }

  // ---- Reading lines back ------------------------------------------------------------

  lemma {:induction false} UnescapeSnoc(t: string, c: char)
    ensures Unescape(Escape(t) + EscapeChar(c)) == Unescape(Escape(t)) + [c]
    decreases |t|
  {
    hide Escape, Unescape, EscapeChar;
    EscapeFront(t);
    EscapeEmpty();
    if |t| == 0 {
      UnescapeChar(c, "");
      assert Escape(t) + EscapeChar(c) == EscapeChar(c) + "";
    } else {
      var e, r := EscapeChar(t[0]), Escape(t[1..]);
      UnescapeSnoc(t[1..], c);
      assert Escape(t) + EscapeChar(c) == e + (r + EscapeChar(c));
      UnescapeChar(t[0], r + EscapeChar(c));
      UnescapeChar(t[0], r);
    }
  }

  lemma EscapeEmpty()
    ensures Escape("") == "" && Unescape("") == ""
  {
  }

  lemma UnescapeChar(c: char, rest: string)
    ensures Unescape(EscapeChar(c) + rest) == [c] + Unescape(rest)
  {
    var u := EscapeChar(c) + rest;
    if Special(c) {
      assert u[2..] == rest;
    } else {
      assert u[1..] == rest;
    }
  }

  lemma EscapeSnoc(t: string, c: char)
    ensures Escape(t + [c]) == Escape(t) + EscapeChar(c)
  {
    hide EscapeChar;
    assert (t + [c])[..|t|] == t;
  }

  lemma {:induction false} EscapeFront(t: string)
    ensures |t| > 0 ==> Escape(t) == EscapeChar(t[0]) + Escape(t[1..])
    decreases |t|
  {
    hide Escape, EscapeChar;
    EscapeEmpty();
    if |t| == 1 {
      EscapeSnoc("", t[0]);
      assert t == "" + [t[0]] && t[1..] == "";
    } else if |t| > 1 {
      var init, c := t[..|t| - 1], t[|t| - 1];
      EscapeFront(init);
      EscapeSnoc(init, c);
      EscapeSnoc(init[1..], c);
      assert t == init + [c] && t[1..] == init[1..] + [c];
    }
  }

  /** Unescaping gives the label back. */
  lemma {:induction false} UnescapeEscape(s: string)
    ensures Unescape(Escape(s)) == s
  {
    if |s| > 0 {
      UnescapeEscape(s[..|s| - 1]);
      UnescapeSnoc(s[..|s| - 1], s[|s| - 1]);
    }
  }

  lemma {:induction false} EscapedIsOneLine(s: string)
    ensures '\n' !in Escape(s) && '\r' !in Escape(s)
  {
    if |s| > 0 {
      EscapedIsOneLine(s[..|s| - 1]);
    }
  }

  /** Exactly one newline, at the end, and no carriage return. */
  predicate IsOneLine(t: string) {
    |t| > 0 && t[|t| - 1] == '\n' && '\n' !in t[..|t| - 1] && '\r' !in t
  }

  lemma LineIsOneLine(lo: nat, hi: nat, bits: int, name: string)
    ensures IsOneLine(Line(lo, hi, bits, name))
  {
    hide Hex, Escape;
    EscapedIsOneLine(name);
    var t := Line(lo, hi, bits, name);
    assert t[..|t| - 1] == Flag(name) + DigestText(lo, hi, bits) + "  " + Escape(name);
  }

  datatype Record = Record(bits: int, lo: nat, hi: nat, name: string)
  datatype Option<+T> = None | Some(value: T)

  /** Reads one line back. A leading backslash flags the field; the width shows in where the spaces are. */
  function ParseLine(t: string): Option<Record> {
    if |t| == 0 then None
    else if t[0] == '\\' then ParseFields(t[1..], true)
    else ParseFields(t, false)
  }

  function ParseFields(u: string, flagged: bool): Option<Record> {
    if |u| >= 19 && u[16..18] == "  " then
      var field := u[18..|u| - 1];
      Some(Record(64, HexValue(u[..16]), 0, if flagged then Unescape(field) else field))
    else if |u| >= 35 && u[32..34] == "  " then
      var field := u[34..|u| - 1];
      Some(Record(128, HexValue(u[16..32]), HexValue(u[..16]), if flagged then Unescape(field) else field))
    else None
  }

  /** Every printed line parses back to the width, the words and the name it was printed from. */
  lemma LineRoundTrip(lo: nat, hi: nat, bits: int, name: string)
    requires lo < TWO_64 && hi < TWO_64
    ensures ParseLine(Line(lo, hi, bits, name)) ==
      Some(if bits == 128 then Record(128, lo, hi, name) else Record(64, lo, 0, name))
  {
    hide Hex, HexValue, Escape, Unescape, ParseFields;
    SixteenDigits();
    HexRoundTrip(lo, 16);
    HexRoundTrip(hi, 16);
    UnescapeEscape(name);
    var t, w, e := Line(lo, hi, bits, name), DigestText(lo, hi, bits), Escape(name);
    var u := w + "  " + e + "\n";
    assert t == Flag(name) + u;
    assert w[0] != '\\';
    if e != name {
      assert t[1..] == u;
    } else {
      assert t == u;
    }
    FieldsRoundTrip(lo, hi, bits, e, e != name);
  }

  lemma SixteenDigits()
    ensures Pow16(16) == TWO_64
  {
    assert Pow16(8) == 0x1_0000_0000;
  }

  lemma FieldsRoundTrip(lo: nat, hi: nat, bits: int, e: string, flagged: bool)
    requires HexValue(Hex(lo, 16)) == lo && HexValue(Hex(hi, 16)) == hi
    ensures ParseFields(DigestText(lo, hi, bits) + "  " + e + "\n", flagged) ==
      var name := if flagged then Unescape(e) else e;
      Some(if bits == 128 then Record(128, lo, hi, name) else Record(64, lo, 0, name))
  {
    hide Hex, HexValue, Unescape;
    var u := DigestText(lo, hi, bits) + "  " + e + "\n";
    if bits == 128 {
      assert u[..16] == Hex(hi, 16);
      assert u[16..32] == Hex(lo, 16);
      assert u[16] == Hex(lo, 16)[0];
      assert u[16..18][0] == u[16];
      assert u[32..34] == "  ";
      assert u[34..|u| - 1] == e;
    } else {
      assert u[..16] == Hex(lo, 16);
      assert u[16..18] == "  ";
      assert u[18..|u| - 1] == e;
    }
  }

  // ---- Letter by letter --------------------------------------------------------------

  lemma {:induction false} EscapeConcat(a: string, b: string)
    ensures Escape(a + b) == Escape(a) + Escape(b)
  {
    hide EscapeChar;
    if |b| == 0 {
      assert a + b == a;
    } else {
      var c := b[|b| - 1];
      EscapeConcat(a, b[..|b| - 1]);
      EscapeSnoc(a + b[..|b| - 1], c);
      assert a + b == a + b[..|b| - 1] + [c];
    }
  }

  lemma EscapeOne(s: string, c: char, t: string)
    ensures Escape(s + [c] + t) == Escape(s) + EscapeChar(c) + Escape(t)
  {
    hide EscapeChar, Escape;
    EscapeConcat(s + [c], t);
    EscapeSnoc(s, c);
  }

  /** A newline becomes \n, a carriage return \r, a backslash two, wherever they stand; nothing else changes. */
  lemma EscapedLetters(s: string, c: char, t: string)
    ensures Escape(s + "\n" + t) == Escape(s) + "\\n" + Escape(t)
    ensures Escape(s + "\r" + t) == Escape(s) + "\\r" + Escape(t)
    ensures Escape(s + "\\" + t) == Escape(s) + "\\\\" + Escape(t)
    ensures c != '\n' && c != '\r' && c != '\\' ==> Escape(s + [c] + t) == Escape(s) + [c] + Escape(t)
  {
    hide Escape;
    EscapeOne(s, '\n', t);
    EscapeOne(s, '\r', t);
    EscapeOne(s, '\\', t);
    EscapeOne(s, c, t);
  }

  /** The digits by name. */
  lemma HexDigitChars()
    ensures HexDigit(0) == '0' && HexDigit(1) == '1' && HexDigit(2) == '2' && HexDigit(3) == '3'
    ensures HexDigit(4) == '4' && HexDigit(5) == '5' && HexDigit(6) == '6' && HexDigit(7) == '7'
    ensures HexDigit(8) == '8' && HexDigit(9) == '9' && HexDigit(10) == 'a' && HexDigit(11) == 'b'
    ensures HexDigit(12) == 'c' && HexDigit(13) == 'd' && HexDigit(14) == 'e' && HexDigit(15) == 'f'
  {
  }

  lemma TestNames()
    ensures Escape("-") == "-" && Escape("a\nb") == "a\\nb"
  {
    EscapedLetters("a", 'a', "b");
    EscapedLetters("", '-', "");
    EscapedLetters("", 'a', "");
    EscapedLetters("", 'b', "");
    hide Escape;
    EscapeEmpty();
    assert "" + ['-'] + "" == "-" && "" + ['a'] + "" == "a" && "" + ['b'] + "" == "b" && "a" + "\n" + "b" == "a\nb";
  }

  /** The lines of an input read from standard input, high word first at 128 bits, and of a name with a newline in it. */
  lemma LinesSpelled(lo: nat, hi: nat)
    ensures Line(lo, hi, 64, "-") == Hex(lo, 16) + "  -\n"
    ensures Line(lo, hi, 128, "-") == Hex(hi, 16) + Hex(lo, 16) + "  -\n"
    ensures Line(lo, hi, 64, "a\nb") == "\\" + Hex(lo, 16) + "  a\\nb\n"
  {
    hide Hex, Escape;
    TestNames();
    assert |"a\nb"| != |"a\\nb"|;
  }

  // ---- Many lines --------------------------------------------------------------------

  function Join(lines: seq<string>): string {
    if |lines| == 0 then "" else lines[0] + Join(lines[1..])
  }

  /** The length of the first line of t, its newline included. */
  function FirstLine(t: string): (k: nat)
    requires |t| > 0
    ensures 0 < k <= |t|
  {
    if t[0] == '\n' || |t| == 1 then 1 else 1 + FirstLine(t[1..])
  }

  function Split(t: string): seq<string> {
    if |t| == 0 then [] else [t[..FirstLine(t)]] + Split(t[FirstLine(t)..])
  }

  lemma {:induction false} FirstLineIs(l: string, rest: string)
    requires |l| > 0 && l[|l| - 1] == '\n' && '\n' !in l[..|l| - 1]
    ensures FirstLine(l + rest) == |l|
  {
    if |l| == 1 {
      assert (l + rest)[0] == '\n';
    } else {
      assert l[0] == l[..|l| - 1][0];
      assert l[1..][..|l| - 2] == l[..|l| - 1][1..];
      FirstLineIs(l[1..], rest);
      assert (l + rest)[1..] == l[1..] + rest;
    }
  }

  /** Any concatenation of printed lines splits back into the same lines. */
  lemma {:induction false} SplitJoin(lines: seq<string>)
    requires forall l :: l in lines ==> IsOneLine(l)
    ensures Split(Join(lines)) == lines
  {
    if |lines| > 0 {
      var l, rest := lines[0], Join(lines[1..]);
      assert IsOneLine(l);
      FirstLineIs(l, rest);
      SplitJoin(lines[1..]);
      assert (l + rest)[..|l|] == l;
      assert (l + rest)[|l|..] == rest;
    }
  }

  /** Printing a list of records and splitting the output gives one line per record, each of which parses back. */
  method PrintAll(records: seq<Record>) returns (text: string)
    requires forall r :: r in records ==> (r.bits == 64 || r.bits == 128) && r.lo < TWO_64 && r.hi < TWO_64
    requires forall r :: r in records ==> '\0' !in r.name && (r.bits == 64 ==> r.hi == 0)
    ensures |Split(text)| == |records|
    ensures forall i :: 0 <= i < |records| ==> ParseLine(Split(text)[i]) == Some(records[i])
  {
    hide Line, ParseLine, Split, IsOneLine;
    var out := new Output();
    ghost var lines: seq<string> := [];
    assert Join(lines) == "";
    for i := 0 to |records|
      invariant |lines| == i && out.text == Join(lines) && fresh(out)
      invariant forall l :: l in lines ==> IsOneLine(l)
      invariant forall k :: 0 <= k < i ==> ParseLine(lines[k]) == Some(records[k])
    {
      var r := records[i];
      assert r in records;
      ghost var l := Line(r.lo, r.hi, r.bits, r.name);
      out.PrintDigest(r.lo, r.hi, r.bits, r.name);
      LineIsOneLine(r.lo, r.hi, r.bits, r.name);
      LineRoundTrip(r.lo, r.hi, r.bits, r.name);
      JoinSnoc(lines, l);
      lines := lines + [l];
    }
    SplitJoin(lines);
    text := out.text;
  }

  lemma {:induction false} JoinSnoc(lines: seq<string>, l: string)
    ensures Join(lines + [l]) == Join(lines) + l
  {
    if |lines| == 0 {
      assert lines + [l] == [l];
      assert [l][1..] == [];
    } else {
      JoinSnoc(lines[1..], l);
      assert (lines + [l])[1..] == lines[1..] + [l];
    }
  }
}
