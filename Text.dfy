/**
 * Text rendering used by the order core: decimal digits of integers
 * (Java's Integer.toString and String.format("%03d")), two-decimal money
 * amounts in cents (BigDecimal.setScale(2, HALF_UP) and String.format("%.2f")),
 * and splitting a text into its lines.
 */
module Text {
  import opened Wrappers

  predicate IsDigit(c: char) {
    '0' <= c <= '9'
  }

  predicate AllDigits(s: string) {
    forall i :: 0 <= i < |s| ==> IsDigit(s[i])
  }

  function DigitValue(c: char): (d: nat)
    requires IsDigit(c)
    ensures d < 10
  {
    c as int - '0' as int
  }

  function DigitChar(d: nat): (c: char)
    requires d < 10
    ensures IsDigit(c) && DigitValue(c) == d
  {
    ('0' as int + d) as char
  }

  /** The number a string of decimal digits denotes, most significant digit first. */
  function DigitsValue(s: string): nat
    requires AllDigits(s)
  {
    if |s| == 0 then 0 else 10 * DigitsValue(s[..|s| - 1]) + DigitValue(s[|s| - 1])
  }

  /** Shortest decimal rendering of a natural number. */
  function NatToString(n: nat): (s: string)
    ensures |s| >= 1 && AllDigits(s)
    ensures DigitsValue(s) == n
    ensures s[0] == '0' ==> n == 0
    ensures '\n' !in s && s[0] != '-'
    ensures n < 10 ==> |s| == 1
    ensures n < 100 ==> |s| <= 2
    ensures n < 1000 ==> |s| <= 3
    decreases n
  {
    if n < 10 then [DigitChar(n)]
    else
      var front := NatToString(n / 10);
      var s := front + [DigitChar(n % 10)];
      assert s[..|s| - 1] == front;
      s
  }

  /** Decimal rendering of a Java int as string concatenation produces it. */
  function IntToString(i: int): (s: string)
    ensures |s| >= 1 && '\n' !in s
    ensures s[0] == '-' <==> i < 0
    ensures i < 0 ==> AllDigits(s[1..]) && DigitsValue(s[1..]) == -i
    ensures i >= 0 ==> AllDigits(s) && DigitsValue(s) == i
  {
    if i < 0 then
      var s := "-" + NatToString(-i);
      assert s[1..] == NatToString(-i);
      s
    else NatToString(i)
  }

  function Zeros(k: nat): (z: string)
    ensures |z| == k && AllDigits(z)
  {
    if k == 0 then "" else "0" + Zeros(k - 1)
  }

  lemma {:induction false} ZerosValue(k: nat)
    ensures DigitsValue(Zeros(k)) == 0
  {
    if k > 0 {
      ZerosValue(k - 1);
      assert Zeros(k) == Zeros(k - 1) + "0" by { ZerosSnoc(k - 1); }
      assert Zeros(k)[..k - 1] == Zeros(k - 1);
    }
  }

  lemma {:induction false} ZerosSnoc(k: nat)
    ensures Zeros(k + 1) == Zeros(k) + "0"
  {
    if k > 0 {
      ZerosSnoc(k - 1);
    }
  }

  /** Leading zeros do not change the value of a digit string. */
  lemma {:induction false} LeadingZerosValue(k: nat, s: string)
    requires AllDigits(s)
    ensures AllDigits(Zeros(k) + s) && DigitsValue(Zeros(k) + s) == DigitsValue(s)
    decreases |s|
  {
    var t := Zeros(k) + s;
    if |s| == 0 {
      assert t == Zeros(k);
      ZerosValue(k);
    } else {
      LeadingZerosValue(k, s[..|s| - 1]);
      assert t[..|t| - 1] == Zeros(k) + s[..|s| - 1];
    }
  }

  /** String.format("%03d", n): at least three digits, padded with leading zeros. */
  function Pad3(n: nat): (s: string)
    ensures |s| >= 3 && (n < 1000 ==> |s| == 3)
    ensures AllDigits(s) && DigitsValue(s) == n
    ensures |s| > 3 ==> s[0] != '0'
    ensures '\n' !in s
  {
    var digits := NatToString(n);
    if |digits| >= 3 then digits
    else
      LeadingZerosValue(3 - |digits|, digits);
      Zeros(3 - |digits|) + digits
  }

  /**
   * A money amount in cents with exactly two fraction digits: an optional
   * minus sign, the whole units, a dot and two digits.
   */
  function FormatCents(c: int): (s: string)
    ensures |s| >= 4 && s[|s| - 3] == '.' && IsDigit(s[|s| - 2]) && IsDigit(s[|s| - 1])
    ensures '\n' !in s
  {
    (if c < 0 then "-" else "") + CentsText(if c < 0 then -c else c)
  }

  /** An unsigned amount in cents: whole units, a dot and two digits. */
  function CentsText(a: nat): (s: string)
    ensures |s| >= 4 && s[|s| - 3] == '.' && IsDigit(s[|s| - 2]) && IsDigit(s[|s| - 1])
    ensures '\n' !in s && s[0] != '-'
  {
    NatToString(a / 100) + "." + [DigitChar(a % 100 / 10), DigitChar(a % 10)]
  }

  /** Reads back an unsigned two-decimal amount in cents; None when the text is not of that form. */
  function ParseUnsigned(s: string): Option<nat> {
    if |s| < 4 || s[|s| - 3] != '.' || !IsDigit(s[|s| - 2]) || !IsDigit(s[|s| - 1]) || !AllDigits(s[..|s| - 3]) then None
    else Some(DigitsValue(s[..|s| - 3]) * 100 + 10 * DigitValue(s[|s| - 2]) + DigitValue(s[|s| - 1]))
  }

  /** Reads back a two-decimal amount in cents with an optional minus sign. */
  function ParseCents(s: string): Option<int> {
    if |s| >= 1 && s[0] == '-' then
      match ParseUnsigned(s[1..])
      case Some(m) => Some(0 - m as int)
      case None => None
    else
      match ParseUnsigned(s)
      case Some(m) => Some(m)
      case None => None
  }

  lemma ParseUnsignedShape(s: string, whole: string, x: char, y: char)
    requires |whole| >= 1 && AllDigits(whole) && IsDigit(x) && IsDigit(y)
    requires s == whole + ['.', x, y]
    ensures ParseUnsigned(s) == Some(DigitsValue(whole) * 100 + 10 * DigitValue(x) + DigitValue(y))
  {
    assert s[..|s| - 3] == whole;
  }

  /** Rendering an amount loses nothing: it reads back as the same number of cents. */
  lemma FormatCentsRoundTrip(c: int)
    ensures ParseCents(FormatCents(c)) == Some(c)
  {
    if c < 0 {
      var t := CentsText(-c);
      CentsTextRoundTrip(-c);
      assert FormatCents(c) == "-" + t;
      SignedRoundTrip(t, -c);
    } else {
      CentsTextRoundTrip(c);
      assert FormatCents(c) == CentsText(c);
      UnsignedRoundTrip(CentsText(c), c);
    }
  }

  lemma UnsignedRoundTrip(t: string, a: nat)
    requires ParseUnsigned(t) == Some(a) && t[0] != '-'
    ensures ParseCents(t) == Some(a)
  {
  }

  lemma SignedRoundTrip(t: string, a: nat)
    requires ParseUnsigned(t) == Some(a)
    ensures ParseCents("-" + t) == Some(0 - a as int)
  {
    assert ("-" + t)[1..] == t;
  }

  lemma CentsTextRoundTrip(a: nat)
    ensures ParseUnsigned(CentsText(a)) == Some(a)
  {
    var whole := NatToString(a / 100);
    assert CentsText(a) == whole + ['.', DigitChar(a % 100 / 10), DigitChar(a % 10)];
    ParseUnsignedShape(CentsText(a), whole, DigitChar(a % 100 / 10), DigitChar(a % 10));
    DecimalSplit(a);
  }

  /** Whole units, tens of cents and cents add back up to the amount. */
  lemma DecimalSplit(a: nat)
    ensures (a / 100) * 100 + 10 * (a % 100 / 10) + a % 10 == a
  {
  }

  /** Two different amounts never render alike. */
  lemma FormatCentsInjective(c: int, d: int)
    ensures FormatCents(c) == FormatCents(d) <==> c == d
  {
    FormatCentsRoundTrip(c);
    FormatCentsRoundTrip(d);
  }

  /** Index of the first line break in a text that has one. */
  function FirstNewline(s: string): (i: nat)
    requires '\n' in s
    ensures i < |s| && s[i] == '\n'
  {
    if s[0] == '\n' then 0 else 1 + FirstNewline(s[1..])
  }

  /** No line break comes before the one FirstNewline finds. */
  lemma {:induction false} FirstNewlineIsFirst(s: string, k: nat)
    requires '\n' in s && k < FirstNewline(s)
    ensures s[k] != '\n'
    decreases |s|
  {
    if k > 0 {
      assert s[1..][k - 1] == s[k];
      FirstNewlineIsFirst(s[1..], k - 1);
    }
  }

  /** The lines of a text, as Java's s.split("\n", -1) gives them (trailing empty lines kept). */
  function SplitLines(s: string): (r: seq<string>)
    ensures |r| >= 1
    decreases |s|
  {
    if '\n' in s then
      var i := FirstNewline(s);
      [s[..i]] + SplitLines(s[i + 1..])
    else [s]
  }

  /** A line break after a line with none splits off exactly that line. */
  lemma SplitLinesCons(a: string, b: string)
    requires '\n' !in a
    ensures SplitLines(a + "\n" + b) == [a] + SplitLines(b)
  {
    var s := a + "\n" + b;
    assert s[|a|] == '\n';
    assert forall k :: 0 <= k < |a| ==> s[k] == a[k];
    var i := FirstNewline(s);
    if i > |a| {
      FirstNewlineIsFirst(s, |a|);
    }
    assert i == |a|;
    assert s[..i] == a;
    assert s[i + 1..] == b;
  }

  /** Each text followed by a line break, concatenated. */
  function Terminated(texts: seq<string>): string {
    if |texts| == 0 then "" else texts[0] + "\n" + Terminated(texts[1..])
  }

  /** Texts without line breaks, each terminated, split back into those texts. */
  lemma {:induction false} SplitTerminated(texts: seq<string>, rest: string)
    requires forall k :: 0 <= k < |texts| ==> '\n' !in texts[k]
    ensures SplitLines(Terminated(texts) + rest) == texts + SplitLines(rest)
    decreases |texts|
  {
    if |texts| == 0 {
      assert Terminated(texts) + rest == rest;
    } else {
      var tail := Terminated(texts[1..]) + rest;
      calc {
        SplitLines(Terminated(texts) + rest);
      == { assert Terminated(texts) + rest == texts[0] + "\n" + tail; }
        SplitLines(texts[0] + "\n" + tail);
      == { SplitLinesCons(texts[0], tail); }
        [texts[0]] + SplitLines(tail);
      == { SplitTerminated(texts[1..], rest); }
        [texts[0]] + (texts[1..] + SplitLines(rest));
      == { assert texts == [texts[0]] + texts[1..]; }
        texts + SplitLines(rest);
      }
    }
  }

  lemma {:induction false} TerminatedAppend(a: seq<string>, b: seq<string>)
    ensures Terminated(a + b) == Terminated(a) + Terminated(b)
    decreases |a|
  {
    if |a| == 0 {
      assert a + b == b;
    } else {
      assert (a + b)[1..] == a[1..] + b;
      TerminatedAppend(a[1..], b);
    }
  }

  lemma TerminatedSnoc(texts: seq<string>, x: string)
    ensures Terminated(texts + [x]) == Terminated(texts) + (x + "\n")
  {
    TerminatedAppend(texts, [x]);
    TerminatedOne(x);
  }

  lemma TerminatedFive(p: seq<string>, q: seq<string>, r: seq<string>, t: seq<string>, u: seq<string>)
    ensures Terminated(p + q + r + t + u)
         == Terminated(p) + Terminated(q) + Terminated(r) + Terminated(t) + Terminated(u)
  {
    TerminatedAppend(p, q);
    TerminatedAppend(p + q, r);
    TerminatedAppend(p + q + r, t);
    TerminatedAppend(p + q + r + t, u);
  }

  lemma TerminatedOne(x: string)
    ensures Terminated([x]) == x + "\n"
  {
    assert [x][1..] == [];
  }

  lemma TerminatedThree(x: string, y: string, z: string)
    ensures Terminated([x, y, z]) == x + "\n" + y + "\n" + z + "\n"
  {
    assert [x, y, z][1..] == [y, z];
    assert [y, z][1..] == [z];
    TerminatedOne(z);
    assert Terminated([y, z]) == y + "\n" + (z + "\n");
  }

  /** None of the texts contains a line break. */
  predicate NoBreaks(texts: seq<string>) {
    forall k :: 0 <= k < |texts| ==> '\n' !in texts[k]
  }

  lemma NoBreaksAppend(a: seq<string>, b: seq<string>)
    requires NoBreaks(a) && NoBreaks(b)
    ensures NoBreaks(a + b)
  {
    forall k | 0 <= k < |a + b| ensures '\n' !in (a + b)[k] {
      if k < |a| {
        assert (a + b)[k] == a[k];
      } else {
        assert (a + b)[k] == b[k - |a|];
      }
    }
  }

  /** A text made of terminated lines and a last unterminated line splits into exactly those lines. */
  lemma SplitTerminatedLast(s: string, texts: seq<string>, last: string)
    requires s == Terminated(texts) + last
    requires NoBreaks(texts)
    requires '\n' !in last
    ensures SplitLines(s) == texts + [last]
  {
    SplitTerminated(texts, last);
  }
}
