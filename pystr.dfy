/** The parts of Python's `str` behaviour the core relies on: the
    whitespace classification used by `strip()`, `strip()` itself,
    decimal and zero-padded formatting of integers, `sep.join(parts)`
    and the substring test `t in s`. */
module PyStr {

  /** Python's `str.isspace` for one character: the characters `strip()`
      with no argument removes. */
  predicate IsSpace(c: char) {
    var n := c as int;
    (0x09 <= n <= 0x0D) || (0x1C <= n <= 0x20) || n == 0x85 || n == 0xA0 || n == 0x1680
    || (0x2000 <= n <= 0x200A) || n == 0x2028 || n == 0x2029 || n == 0x202F || n == 0x205F
    || n == 0x3000
  }

  /** `bool(s.strip())`: the string has a character that is not whitespace. */
  predicate NonBlank(s: string) {
    exists i :: 0 <= i < |s| && !IsSpace(s[i])
  }

  function StripLeft(s: string): (r: string)
    ensures |r| <= |s| && r == s[|s| - |r|..]
    ensures r == [] || !IsSpace(r[0])
    ensures forall i :: 0 <= i < |s| - |r| ==> IsSpace(s[i])
  {
    if s != [] && IsSpace(s[0]) then StripLeft(s[1..]) else s
  }

  function StripRight(s: string): (r: string)
    ensures |r| <= |s| && r == s[..|r|]
    ensures r == [] || !IsSpace(r[|r| - 1])
    ensures forall i :: |r| <= i < |s| ==> IsSpace(s[i])
  {
    if s != [] && IsSpace(s[|s| - 1]) then StripRight(s[..|s| - 1]) else s
  }

  /** Python's `s.strip()`. */
  function Strip(s: string): (r: string)
    ensures r == [] || (!IsSpace(r[0]) && !IsSpace(r[|r| - 1]))
    ensures r == [] <==> !NonBlank(s)
  {
    var l := StripLeft(s);
    var r := StripRight(l);
    assert r != [] ==> r[0] == l[0];
    assert NonBlank(s) ==> l != [] by {
      if NonBlank(s) {
        var i :| 0 <= i < |s| && !IsSpace(s[i]);
      }
    }
    assert l != [] ==> NonBlank(s) by {
      if l != [] {
        assert s[|s| - |l|] == l[0];
      }
    }
    r
  }

  /** A string that starts and ends with a non-space character, wrapped in
      one newline on each side, strips back to itself. */
  lemma StripNewlineFrame(p: string)
    requires p != [] && !IsSpace(p[0]) && !IsSpace(p[|p| - 1])
    ensures Strip("\n" + p + "\n") == p
  {
    var s := "\n" + p + "\n";
    assert s[1..] == p + "\n";
    assert StripLeft(s) == StripLeft(p + "\n") == p + "\n";
    assert (p + "\n")[..|p|] == p;
    assert StripRight(p + "\n") == StripRight(p) == p;
  }

  function DigitChar(d: nat): char
    requires d < 10
  {
    "0123456789"[d]
  }

  predicate IsDigitChar(c: char) {
    '0' <= c <= '9'
  }

  /** `str(n)` for a natural number. */
  function Decimal(n: nat): (s: string)
    ensures |s| >= 1
    ensures forall i :: 0 <= i < |s| ==> IsDigitChar(s[i])
  {
    if n < 10 then [DigitChar(n)] else Decimal(n / 10) + [DigitChar(n % 10)]
  }

  /** The value a string of decimal digits denotes. */
  function DigitsValue(s: string): nat
    requires forall i :: 0 <= i < |s| ==> IsDigitChar(s[i])
  {
    if s == [] then 0
    else
      assert IsDigitChar(s[|s| - 1]);
      DigitsValue(s[..|s| - 1]) * 10 + (s[|s| - 1] as int - '0' as int)
  }

  lemma {:induction false} DecimalValue(n: nat)
    ensures DigitsValue(Decimal(n)) == n
  {
    if n >= 10 {
      var s := Decimal(n);
      assert s[..|s| - 1] == Decimal(n / 10);
      DecimalValue(n / 10);
    }
  }

  function Zeros(k: nat): (s: string)
    ensures |s| == k && forall i :: 0 <= i < k ==> s[i] == '0'
  {
    if k == 0 then [] else Zeros(k - 1) + ['0']
  }

  lemma {:induction false} ZerosValue(k: nat)
    ensures DigitsValue(Zeros(k)) == 0
  {
    if k > 0 {
      assert Zeros(k)[..k - 1] == Zeros(k - 1);
      ZerosValue(k - 1);
    }
  }

  lemma {:induction false} LeadingZerosValue(k: nat, s: string)
    requires forall i :: 0 <= i < |s| ==> IsDigitChar(s[i])
    ensures DigitsValue(Zeros(k) + s) == DigitsValue(s)
    decreases |s|
  {
    if s == [] {
      assert Zeros(k) + s == Zeros(k);
      ZerosValue(k);
    } else {
      var init := s[..|s| - 1];
      var t := Zeros(k) + s;
      assert t[..|t| - 1] == Zeros(k) + init;
      assert t[|t| - 1] == s[|s| - 1];
      LeadingZerosValue(k, init);
      assert DigitsValue(t) == DigitsValue(Zeros(k) + init) * 10 + (s[|s| - 1] as int - '0' as int);
    }
  }

  /** Python's `f"{n:04d}"` for a natural number: decimal digits, padded
      on the left with zeros to at least four characters. */
  function Pad4(n: nat): (s: string)
    ensures |s| >= 4
    ensures forall i :: 0 <= i < |s| ==> IsDigitChar(s[i])
  {
    var d := Decimal(n);
    (if |d| < 4 then Zeros(4 - |d|) else []) + d
  }

  /** Zero padding loses nothing: the padded digits still denote `n`. */
  lemma Pad4Value(n: nat)
    ensures DigitsValue(Pad4(n)) == n
  {
    var d := Decimal(n);
    DecimalValue(n);
    if |d| < 4 {
      LeadingZerosValue(4 - |d|, d);
    } else {
      assert Pad4(n) == d;
    }
  }

  lemma Pad4Injective(n: nat, m: nat)
    requires Pad4(n) == Pad4(m)
    ensures n == m
  {
    Pad4Value(n);
    Pad4Value(m);
  }

  /** Python's `sep.join(parts)`. */
  function Join(sep: string, parts: seq<string>): string {
    if parts == [] then ""
    else if |parts| == 1 then parts[0]
    else Join(sep, parts[..|parts| - 1]) + sep + parts[|parts| - 1]
  }

  /** Python's `t in s` for strings. */
  predicate Contains(s: string, t: string) {
    exists i | 0 <= i <= |s| - |t| :: OccursAt(s, t, i)
  }

  /** `t` occurs in `s` starting at position `i`. */
  predicate OccursAt(s: string, t: string, i: int) {
    0 <= i && i + |t| <= |s| && s[i..i + |t|] == t
  }

  lemma ContainsAt(s: string, t: string, i: nat)
    requires i + |t| <= |s| && s[i..i + |t|] == t
    ensures Contains(s, t)
  {
    assert OccursAt(s, t, i);
  }

  /** A piece of a concatenation is contained in it. */
  lemma ContainsMiddle(a: string, t: string, b: string)
    ensures Contains(a + t + b, t)
  {
    assert (a + t + b)[|a|..|a| + |t|] == t;
    assert OccursAt(a + t + b, t, |a|);
  }

  lemma ContainsWithin(s: string, t: string, a: string, b: string)
    requires Contains(s, t)
    ensures Contains(a + s + b, t)
  {
    var i :| 0 <= i <= |s| - |t| && OccursAt(s, t, i);
    assert (a + s + b)[|a| + i..|a| + i + |t|] == s[i..i + |t|];
    assert OccursAt(a + s + b, t, |a| + i);
  }

  /** Every part of a join is contained in the joined string. */
  lemma {:induction false} JoinContainsPart(sep: string, parts: seq<string>, k: nat)
    requires k < |parts|
    ensures Contains(Join(sep, parts), parts[k])
  {
    if |parts| == 1 {
      ContainsAt(parts[0], parts[0], 0);
    } else if k == |parts| - 1 {
      ContainsMiddle(Join(sep, parts[..|parts| - 1]) + sep, parts[k], "");
      assert Join(sep, parts[..|parts| - 1]) + sep + parts[k] + "" == Join(sep, parts);
    } else {
      JoinContainsPart(sep, parts[..|parts| - 1], k);
      ContainsWithin(Join(sep, parts[..|parts| - 1]), parts[k], "", sep + parts[|parts| - 1]);
      assert "" + Join(sep, parts[..|parts| - 1]) + (sep + parts[|parts| - 1]) == Join(sep, parts);
    }
  }

  /** ASCII lower-casing (`str.lower()` restricted to ASCII letters). */
  function LowerAscii(s: string): (r: string)
    ensures |r| == |s|
  {
    seq(|s|, i requires 0 <= i < |s| => if 'A' <= s[i] <= 'Z' then (s[i] as int + 32) as char else s[i])
  }
}
