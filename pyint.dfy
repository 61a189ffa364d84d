/** How Python's `int(s, 16)` reads a string: which strings it turns into
    a number and which it refuses with ValueError. */
module PyInt {
  import opened Util
  import opened PyStr

  predicate HexDigit(c: char) {
    '0' <= c <= '9' || 'a' <= c <= 'f' || 'A' <= c <= 'F'
  }

  /** Hex digits with single underscores between them. */
  predicate DigitRun(s: string) {
    && s != [] && HexDigit(s[0]) && HexDigit(s[|s| - 1])
    && (forall i :: 0 <= i < |s| ==> HexDigit(s[i]) || s[i] == '_')
    && (forall i, j :: 0 <= i < |s| && 0 <= j < |s| && j == i + 1 ==> HexDigit(s[i]) || HexDigit(s[j]))
  }

  /** The text after an optional sign. */
  function Unsigned(t: string): (u: string)
    ensures |u| <= |t|
  {
    if t != [] && (t[0] == '+' || t[0] == '-') then t[1..] else t
  }

  /** A list of runs of ten decimal digits, each given by the code point
      of its digit zero. */
  datatype DigitRuns = NoRun | Run(zero: int, rest: DigitRuns)

  /** The runs of Unicode decimal digits (general category Nd) outside
      ASCII, as of Unicode 15.0, each holding the digits 0 to 9 in order:
      36 in the Basic Multilingual Plane and 31 in plane 1; no
      other plane has any. */
  const BmpDecimalRuns: DigitRuns :=
    Run(0x0660, Run(0x06F0, Run(0x07C0, Run(0x0966, Run(0x09E6, Run(0x0A66, Run(0x0AE6,
    Run(0x0B66, Run(0x0BE6, Run(0x0C66, Run(0x0CE6, Run(0x0D66, Run(0x0DE6, Run(0x0E50,
    Run(0x0ED0, Run(0x0F20, Run(0x1040, Run(0x1090, Run(0x17E0, Run(0x1810, Run(0x1946,
    Run(0x19D0, Run(0x1A80, Run(0x1A90, Run(0x1B50, Run(0x1BB0, Run(0x1C40, Run(0x1C50,
    Run(0xA620, Run(0xA8D0, Run(0xA900, Run(0xA9D0, Run(0xA9F0, Run(0xAA50, Run(0xABF0,
    Run(0xFF10, NoRun))))))))))))))))))))))))))))))))))))

  const Plane1DecimalRuns: DigitRuns :=
    Run(0x104A0, Run(0x10D30, Run(0x11066, Run(0x110F0, Run(0x11136, Run(0x111D0, Run(0x112F0,
    Run(0x11450, Run(0x114D0, Run(0x11650, Run(0x116C0, Run(0x11730, Run(0x118E0, Run(0x11950,
    Run(0x11C50, Run(0x11D50, Run(0x11DA0, Run(0x11F50, Run(0x16A60, Run(0x16AC0, Run(0x16B50,
    Run(0x1D7CE, Run(0x1D7D8, Run(0x1D7E2, Run(0x1D7EC, Run(0x1D7F6, Run(0x1E140, Run(0x1E2F0,
    Run(0x1E4F0, Run(0x1E950, Run(0x1FBF0, NoRun)))))))))))))))))))))))))))))))

  /** The decimal digit runs of the plane holding code point `n`. */
  function DecimalRunsOfPlane(n: int): DigitRuns {
    if 0 <= n < 0x10000 then BmpDecimalRuns
    else if 0x10000 <= n < 0x20000 then Plane1DecimalRuns
    else NoRun
  }

  /** The value of code point `n` as a digit of one of the runs `runs`. */
  function DigitIn(n: int, runs: DigitRuns): (d: Option<nat>)
    ensures d.Some? ==> d.value < 10
  {
    match runs
    case NoRun => None
    case Run(z, rest) => if z <= n < z + 10 then Some(n - z) else DigitIn(n, rest)
  }

  /** The value of code point `n` as a Unicode decimal digit outside ASCII. */
  function UnicodeDecimal(n: int): (d: Option<nat>)
    ensures d.Some? ==> d.value < 10
  {
    DigitIn(n, DecimalRunsOfPlane(n))
  }

  /** The character `int()` reads in place of `c`: ASCII is kept, other
      whitespace becomes a space, other decimal digits become their ASCII
      digit, and anything else becomes `?`, which no number contains. */
  function IntChar(c: char): (r: char)
    ensures (c as int) < 127 ==> r == c
  {
    if (c as int) < 127 then c
    else if IsSpace(c) then ' '
    else match UnicodeDecimal(c as int)
      case Some(d) => ('0' as int + d) as char
      case None => '?'
  }

  /** The text `int()` parses after it has rewritten every character. */
  function IntText(s: string): (t: string)
    ensures |t| == |s| && forall i {:trigger t[i]} :: 0 <= i < |s| ==> t[i] == IntChar(s[i])
  {
    if s == [] then [] else [IntChar(s[0])] + IntText(s[1..])
  }

  /** The whitespace `int()` skips around the digits: ASCII only. */
  predicate AsciiSpace(c: char) {
    c == ' ' || '\t' <= c <= '\r'
  }

  function AsciiStripLeft(s: string): (r: string)
    ensures |r| <= |s| && r == s[|s| - |r|..]
    ensures r == [] || !AsciiSpace(r[0])
  {
    if s != [] && AsciiSpace(s[0]) then AsciiStripLeft(s[1..]) else s
  }

  function AsciiStripRight(s: string): (r: string)
    ensures |r| <= |s| && r == s[..|r|]
    ensures r == [] || !AsciiSpace(r[|r| - 1])
    ensures forall i :: |r| <= i < |s| ==> AsciiSpace(s[i])
  {
    if s != [] && AsciiSpace(s[|s| - 1]) then AsciiStripRight(s[..|s| - 1]) else s
  }

  /** An optional sign, an optional `0x` or `0X` prefix (which may be
      followed by one underscore), then hex digits with single
      underscores between them. */
  predicate HexLiteral(t: string) {
    var u := Unsigned(t);
    || DigitRun(u)
    || (&& |u| >= 2 && u[0] == '0' && (u[1] == 'x' || u[1] == 'X')
        && (DigitRun(u[2..]) || (|u| >= 3 && u[2] == '_' && DigitRun(u[3..]))))
  }

  /** Whether `int(s, 16)` returns instead of raising ValueError: after
      the rewrite of `IntText`, surrounding ASCII whitespace is skipped
      and what is left must be a `HexLiteral`. */
  predicate Int16Accepts(s: string) {
    HexLiteral(AsciiStripRight(AsciiStripLeft(IntText(s))))
  }

  // ---------------------------------------------------------------------
  // Facts about the parts

  /** Hex digits alone form a literal. */
  lemma HexDigitsLiteral(t: string)
    requires t != [] && forall i :: 0 <= i < |t| ==> HexDigit(t[i])
    ensures HexLiteral(t)
  {
    assert Unsigned(t) == t;
    assert DigitRun(t);
  }

  /** No literal starts with anything but a sign, `0` or a hex digit. */
  lemma NotHexLiteral(u: string)
    requires u != [] && !HexDigit(u[0]) && u[0] != '+' && u[0] != '-'
    ensures !HexLiteral(u)
  {
    assert Unsigned(u) == u;
  }

  /** ASCII text is read as it is. */
  lemma AsciiTextKept(s: string)
    requires forall i :: 0 <= i < |s| ==> (s[i] as int) < 127
    ensures IntText(s) == s
  {
  }

  /** Text that neither starts nor ends with ASCII whitespace loses none. */
  lemma AsciiBare(t: string)
    requires t != [] && !AsciiSpace(t[0]) && !AsciiSpace(t[|t| - 1])
    ensures AsciiStripRight(AsciiStripLeft(t)) == t
  {
    assert AsciiStripLeft(t) == t;
  }

  /** A string with no leading or trailing ASCII whitespace, all of whose
      characters are ASCII, is accepted exactly when it is a hex literal. */
  lemma AsciiTextUnchanged(s: string)
    requires s != [] && !AsciiSpace(s[0]) && !AsciiSpace(s[|s| - 1])
    requires forall i :: 0 <= i < |s| ==> (s[i] as int) < 127
    ensures Int16Accepts(s) == HexLiteral(s)
  {
    AsciiTextKept(s);
    AsciiBare(s);
  }

  /** Hex digits are accepted. */
  lemma HexDigitsAccepted(s: string)
    requires s != [] && forall i :: 0 <= i < |s| ==> HexDigit(s[i])
    ensures Int16Accepts(s)
  {
    AsciiTextUnchanged(s);
    HexDigitsLiteral(s);
  }

  /** A minus sign before hex digits is accepted too. */
  lemma SignedDigitsAccepted(s: string)
    requires |s| >= 2 && s[0] == '-' && forall i :: 1 <= i < |s| ==> HexDigit(s[i])
    ensures Int16Accepts(s)
  {
    AsciiTextUnchanged(s);
    HexDigitsLiteral(s[1..]);
    assert Unsigned(s) == s[1..];
  }

  /** ARABIC-INDIC DIGIT ZERO is read as `0`. */
  lemma ArabicIndicZero()
    ensures IntChar('\U{0660}') == '0'
  {
    assert UnicodeDecimal(0x0660) == Some(0);
  }

  /** `int()` reads any Unicode decimal digit as its ASCII digit, so a
      string of ARABIC-INDIC DIGIT ZERO characters is accepted. */
  lemma ArabicIndicZerosAccepted(s: string)
    requires s != [] && forall i :: 0 <= i < |s| ==> s[i] == '\U{0660}'
    ensures Int16Accepts(s)
  {
    ArabicIndicZero();
    var zeros := IntText(s);
    assert forall i :: 0 <= i < |zeros| ==> zeros[i] == '0';
    AsciiBare(zeros);
    HexDigitsLiteral(zeros);
  }

  /** `int()` skips only ASCII space, tab, newline, vertical tab, form
      feed and carriage return around a number, so a string that starts
      with the separator U+001C is rejected. */
  lemma SeparatorRejected(s: string)
    requires s != [] && s[0] == '\U{001C}'
    ensures !Int16Accepts(s)
  {
    SeparatorKept(s);
    SeparatorFirstRejected(IntText(s));
  }

  /** U+001C is ASCII, so `int()` reads it as it is. */
  lemma SeparatorKept(s: string)
    requires s != [] && s[0] == '\U{001C}'
    ensures IntText(s) != [] && IntText(s)[0] == '\U{001C}'
  {
    assert IntText(s)[0] == IntChar(s[0]);
  }

  /** Text that starts with U+001C keeps it after the ASCII whitespace
      is skipped, and so is no literal. */
  lemma SeparatorFirstRejected(t: string)
    requires t != [] && t[0] == '\U{001C}'
    ensures !HexLiteral(AsciiStripRight(AsciiStripLeft(t)))
  {
    assert AsciiStripLeft(t) == t;
    var u := AsciiStripRight(t);
    assert |u| > 0 && u[0] == t[0];
    NotHexLiteral(u);
  }

  /** `str.strip`, unlike `int()`, removes a leading U+001C: before hex
      digits it leaves the digits bare. */
  lemma SeparatorStripped(s: string)
    requires |s| >= 2 && s[0] == '\U{001C}'
    requires forall i :: 1 <= i < |s| ==> HexDigit(s[i])
    ensures Strip(s) == s[1..]
  {
    var t := s[1..];
    assert StripLeft(t) == t;
    assert StripLeft(s) == t;
    assert StripRight(t) == t by {
      assert !IsSpace(t[|t| - 1]);
    }
  }
}
