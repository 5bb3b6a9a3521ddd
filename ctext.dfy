/** The C library behaviour the servers rely on, as functions on strings:
    the <ctype.h> classes, number parsing as glibc's atoi, strtol and
    sscanf("%d") perform it (64-bit saturation, then conversion to a 32-bit
    int), the "%s" word of sscanf, strtok, the trailing-newline rule of
    receive_string, and the line structure of the text written to a file. */
module CText {

  datatype Option<T> = None | Some(value: T)

  /** The characters isspace accepts in the C locale. */
  const Whitespace: set<char> := {' ', '\t', '\n', '\U{0B}', '\U{0C}', '\r'}

  predicate IsSpace(c: char) { c in Whitespace }

  predicate IsDigit(c: char) { '0' <= c <= '9' }

  predicate IsAlnum(c: char) { IsDigit(c) || 'a' <= c <= 'z' || 'A' <= c <= 'Z' }

  predicate AllDigits(s: string) { forall i :: 0 <= i < |s| ==> IsDigit(s[i]) }

  predicate HasWhitespace(s: string) { exists i :: 0 <= i < |s| && IsSpace(s[i]) }

  /** toupper in the C locale. */
  function ToUpper(c: char): char {
    if 'a' <= c <= 'z' then (c as int - 32) as char else c
  }

  function DigitOf(c: char): nat
    requires IsDigit(c)
  {
    c as int - '0' as int
  }

  /** The value of a string of decimal digits, most significant first. */
  function DigitsValue(s: string): nat
    requires AllDigits(s)
  {
    if |s| == 0 then 0 else 10 * DigitsValue(s[..|s| - 1]) + DigitOf(s[|s| - 1])
  }

  /** The decimal text of n, as printf's "%d" writes it. */
  function NatToDecimal(n: nat): (d: string)
    ensures |d| > 0 && AllDigits(d)
  {
    if n < 10 then [('0' as int + n) as char]
    else NatToDecimal(n / 10) + [('0' as int + n % 10) as char]
  }

  function Decimal(i: int): (d: string)
    ensures |d| > 0 && !HasWhitespace(d)
  {
    if i < 0 then "-" + NatToDecimal(-i) else NatToDecimal(i)
  }

  /** Drops the leading characters that belong to d. */
  function SkipIn(s: string, d: set<char>): (t: string)
    ensures |t| <= |s|
  {
    if |s| > 0 && s[0] in d then SkipIn(s[1..], d) else s
  }

  /** The length of the longest prefix of s made of characters outside d. */
  function RunNotIn(s: string, d: set<char>): (k: nat)
    ensures k <= |s|
  {
    if |s| == 0 || s[0] in d then 0 else 1 + RunNotIn(s[1..], d)
  }

  /** The length of the longest prefix of s made of digits. */
  function LeadingDigits(s: string): (k: nat)
    ensures k <= |s|
  {
    if |s| == 0 || !IsDigit(s[0]) then 0 else 1 + LeadingDigits(s[1..])
  }

  /** One strtok step: skip delimiters, take the token up to the next
      delimiter, and continue after that delimiter (strtok overwrites it). */
  function NextToken(s: string, d: set<char>): Option<(string, string)> {
    var t := SkipIn(s, d);
    if |t| == 0 then None
    else
      var k := RunNotIn(t, d);
      Some((t[..k], if k < |t| then t[k + 1..] else []))
  }

  /** sscanf's "%s": the first run of non-whitespace characters. The text
      after it starts at a whitespace character, which the next directive of
      the format skips anyway, so dropping that one character is harmless. */
  function Word(s: string): Option<(string, string)> {
    NextToken(s, Whitespace)
  }

  /** The number strtol, atoi and sscanf("%d") read at the start of s:
      optional whitespace, an optional sign and at least one digit. Returns
      its mathematical value and the length of text it spans. */
  function LeadingNumber(s: string): Option<(int, nat)> {
    var t := SkipIn(s, Whitespace);
    var signLen := if |t| > 0 && (t[0] == '-' || t[0] == '+') then 1 else 0;
    var u := t[signLen..];
    var k := LeadingDigits(u);
    if k == 0 then None
    else
      assert AllDigits(u[..k]) by { LeadingDigitsFacts(u); }
      var v: int := DigitsValue(u[..k]);
      Some((if signLen == 1 && t[0] == '-' then -v else v, |s| - |t| + signLen + k))
  }

  const LongMax: int := 0x7FFF_FFFF_FFFF_FFFF
  const LongMin: int := -0x8000_0000_0000_0000

  /** strtol saturates at the bounds of a 64-bit long. */
  function ClampLong(v: int): int {
    if v > LongMax then LongMax else if v < LongMin then LongMin else v
  }

  predicate IsInt32(v: int) { -0x8000_0000 <= v < 0x8000_0000 }

  /** Conversion of a long to a 32-bit int: the value modulo 2^32. */
  function ToInt32(v: int): (r: int)
    ensures IsInt32(r)
    ensures IsInt32(v) ==> r == v
  {
    var m := v % 0x1_0000_0000;
    if m >= 0x8000_0000 then m - 0x1_0000_0000 else m
  }

  /** atoi: (int) strtol(s, NULL, 10); 0 when no number starts s. */
  function AtoI(s: string): (r: int)
    ensures IsInt32(r)
  {
    match LeadingNumber(s)
    case None => 0
    case Some((v, _)) => ToInt32(ClampLong(v))
  }

  /** The int assigned from strtol when parsing stops at the end of s,
      that is when the whole of s is a number; None otherwise. */
  function WholeNumber(s: string): (r: Option<int>)
    ensures r.Some? ==> IsInt32(r.value)
  {
    match LeadingNumber(s)
    case None => None
    case Some((v, n)) => if n == |s| then Some(ToInt32(ClampLong(v))) else None
  }

  /** sscanf's "%d": the int read at the start of s, if any. */
  function ScanInt(s: string): (r: Option<int>)
    ensures r.Some? ==> IsInt32(r.value)
  {
    match LeadingNumber(s)
    case None => None
    case Some((v, _)) => Some(ToInt32(ClampLong(v)))
  }

  /** receive_string removes one trailing newline from what it received. */
  function StripNewline(s: string): string {
    if |s| > 0 && s[|s| - 1] == '\n' then s[..|s| - 1] else s
  }

  /** The lines that text followed by a newline adds to a file: text split
      at each embedded newline. */
  function SplitLines(s: string): (ls: seq<string>)
    ensures |ls| > 0
  {
    if |s| == 0 then [[]]
    else
      var rest := SplitLines(s[1..]);
      if s[0] == '\n' then [[]] + rest else [[s[0]] + rest[0]] + rest[1..]
  }

  // ---------------------------------------------------------------------
  // Lemmas

  /** Text without a newline is written as exactly one line. */
  lemma {:induction false} SplitLinesSingle(s: string)
    requires '\n' !in s
    ensures SplitLines(s) == [s]
  {
    if |s| > 0 {
      assert '\n' !in s[1..] by {
        forall i | 0 <= i < |s[1..]| ensures s[1..][i] != '\n' { assert s[1..][i] == s[i + 1]; }
      }
      SplitLinesSingle(s[1..]);
      assert [s[0]] + s[1..] == s;
    }
  }

  /** Reading the decimal text of n gives n back. */
  lemma {:induction false} DecimalDigitsValue(n: nat)
    ensures DigitsValue(NatToDecimal(n)) == n
  {
    if n >= 10 {
      var d := NatToDecimal(n);
      assert d[..|d| - 1] == NatToDecimal(n / 10);
      DecimalDigitsValue(n / 10);
    }
  }

  /** SkipIn removes a prefix made of characters of d and stops at one outside d. */
  lemma {:induction false} SkipInFacts(s: string, d: set<char>)
    ensures var t := SkipIn(s, d);
      t == s[|s| - |t|..]
      && (|t| > 0 ==> t[0] !in d)
      && forall i :: 0 <= i < |s| - |t| ==> s[i] in d
  {
    if |s| > 0 && s[0] in d {
      SkipInFacts(s[1..], d);
    }
  }

  /** RunNotIn stops at the first character of d. */
  lemma {:induction false} RunNotInFacts(s: string, d: set<char>)
    ensures var k := RunNotIn(s, d);
      (forall i :: 0 <= i < k ==> s[i] !in d) && (k < |s| ==> s[k] in d)
  {
    if |s| > 0 && s[0] !in d {
      RunNotInFacts(s[1..], d);
    }
  }

  /** LeadingDigits stops at the first character that is not a digit. */
  lemma {:induction false} LeadingDigitsFacts(s: string)
    ensures var k := LeadingDigits(s);
      AllDigits(s[..k]) && (k < |s| ==> !IsDigit(s[k]))
  {
    if |s| > 0 && IsDigit(s[0]) {
      LeadingDigitsFacts(s[1..]);
      var k := LeadingDigits(s);
      assert s[..k] == [s[0]] + s[1..][..k - 1];
    }
  }

  /** A strtok token is non-empty and holds no delimiter. */
  lemma NextTokenFacts(s: string, d: set<char>)
    ensures NextToken(s, d).Some? ==>
      var w := NextToken(s, d).value.0;
      |w| > 0 && forall i :: 0 <= i < |w| ==> w[i] !in d
  {
    var t := SkipIn(s, d);
    SkipInFacts(s, d);
    RunNotInFacts(t, d);
  }

  lemma LeadingDigitsAll(s: string)
    requires AllDigits(s)
    ensures LeadingDigits(s) == |s|
  {
  }

  lemma SkipInNone(s: string, d: set<char>)
    requires |s| == 0 || s[0] !in d
    ensures SkipIn(s, d) == s
  {
  }

  /** A string of digits is read whole as its own value. */
  lemma DigitsLeadingNumber(s: string)
    requires |s| > 0 && AllDigits(s)
    ensures LeadingNumber(s) == Some((DigitsValue(s) as int, |s|))
  {
    assert !IsSpace(s[0]);
    SkipInNone(s, Whitespace);
    var t := SkipIn(s, Whitespace);
    assert t == s;
    assert !(t[0] == '-' || t[0] == '+');
    assert t[0..] == s;
    LeadingDigitsAll(s);
    assert s[..|s|] == s;
  }

  /** atoi and strtol read a string of digits as its value (after the
      64-bit saturation and the 32-bit conversion). */
  lemma DigitsAsNumber(s: string)
    requires |s| > 0 && AllDigits(s)
    ensures AtoI(s) == ToInt32(ClampLong(DigitsValue(s)))
    ensures WholeNumber(s) == Some(ToInt32(ClampLong(DigitsValue(s))))
  {
    DigitsLeadingNumber(s);
  }

  /** The negated decimal text of n is read as -n. */
  lemma NegativeLeadingNumber(n: nat)
    ensures LeadingNumber("-" + NatToDecimal(n)) == Some((-(n as int), 1 + |NatToDecimal(n)|))
  {
    var d := NatToDecimal(n);
    var s := "-" + d;
    assert !IsSpace(s[0]);
    SkipInNone(s, Whitespace);
    var t := SkipIn(s, Whitespace);
    assert t == s;
    assert t[0] == '-';
    assert t[1..] == d;
    LeadingDigitsAll(d);
    assert d[..|d|] == d;
    DecimalDigitsValue(n);
  }

  /** The decimal text "%d" writes for a 32-bit int is read back by strtol
      and by sscanf("%d") as that int. */
  lemma DecimalRoundTrip(i: int)
    requires IsInt32(i)
    ensures WholeNumber(Decimal(i)) == Some(i)
    ensures ScanInt(Decimal(i)) == Some(i)
  {
    if i < 0 {
      DecimalDigitsValue(-i);
      NegativeLeadingNumber(-i);
    } else {
      DecimalDigitsValue(i);
      DigitsLeadingNumber(NatToDecimal(i));
    }
  }

  /** strtok on a token followed by a delimiter yields that token and the
      text after the delimiter. */
  lemma TokenThenDelimiter(w: string, c: char, rest: string, d: set<char>)
    requires |w| > 0 && (forall i :: 0 <= i < |w| ==> w[i] !in d) && c in d
    ensures NextToken(w + [c] + rest, d) == Some((w, rest))
  {
    var s := w + [c] + rest;
    SkipInNone(s, d);
    RunNotInPrefix(s, w, d);
    assert s[..|w|] == w;
    assert s[|w| + 1..] == rest;
  }

  /** strtok on a string that holds no delimiter returns all of it. */
  lemma TokenWhole(w: string, d: set<char>)
    requires |w| > 0 && forall i :: 0 <= i < |w| ==> w[i] !in d
    ensures NextToken(w, d) == Some((w, []))
  {
    SkipInNone(w, d);
    RunNotInPrefix(w, w, d);
    assert w[..|w|] == w;
  }

  lemma {:induction false} RunNotInPrefix(s: string, w: string, d: set<char>)
    requires |w| <= |s| && s[..|w|] == w
    requires forall i :: 0 <= i < |w| ==> w[i] !in d
    requires |w| < |s| ==> s[|w|] in d
    ensures RunNotIn(s, d) == |w|
  {
    if |w| > 0 {
      assert s[0] == w[0];
      assert s[1..][..|w| - 1] == w[1..];
      RunNotInPrefix(s[1..], w[1..], d);
    }
  }

  /** One more digit at the end multiplies the value by ten and adds it. */
  lemma DigitsSnoc(s: string, c: char)
    requires AllDigits(s) && IsDigit(c)
    ensures AllDigits(s + [c]) && DigitsValue(s + [c]) == 10 * DigitsValue(s) + DigitOf(c)
  {
    assert (s + [c])[..|s|] == s;
  }

  /** The value of "4294", the first digits of 2^32, built one digit at a time. */
  lemma DigitsOf4294()
    ensures AllDigits("4294") && DigitsValue("4294") == 4294
  {
    DigitsSnoc("", '4');
    assert "" + ['4'] == "4";
    DigitsSnoc("4", '2');
    assert "4" + ['2'] == "42";
    DigitsSnoc("42", '9');
    assert "42" + ['9'] == "429";
    DigitsSnoc("429", '4');
    assert "429" + ['4'] == "4294";
  }

  /** The value of "429496729", 2^32 without its last digit. */
  lemma DigitsOf429496729()
    ensures AllDigits("429496729") && DigitsValue("429496729") == 429496729
  {
    DigitsOf4294();
    DigitsSnoc("4294", '9');
    assert "4294" + ['9'] == "42949";
    DigitsSnoc("42949", '6');
    assert "42949" + ['6'] == "429496";
    DigitsSnoc("429496", '7');
    assert "429496" + ['7'] == "4294967";
    DigitsSnoc("4294967", '2');
    assert "4294967" + ['2'] == "42949672";
    DigitsSnoc("42949672", '9');
    assert "42949672" + ['9'] == "429496729";
  }
}
