/** Strings as the bridge's two languages handle them: white space, trimming, splitting and
    joining on a character, and decimal numbers. */
module Text {
  import opened Common

  /** Unicode White_Space, which both standard libraries trim and split on. */
  predicate IsSpace(c: char) {
    || '\t' <= c <= '\r' || c == ' ' || c == '\U{85}' || c == '\U{A0}' || c == '\U{1680}'
    || '\U{2000}' <= c <= '\U{200A}' || c == '\U{2028}' || c == '\U{2029}' || c == '\U{202F}'
    || c == '\U{205F}' || c == '\U{3000}'
  }

  function TrimStart(s: string): string {
    if s != [] && IsSpace(s[0]) then TrimStart(s[1..]) else s
  }

  function TrimEnd(s: string): string {
    if s != [] && IsSpace(s[|s| - 1]) then TrimEnd(s[..|s| - 1]) else s
  }

  function Trim(s: string): string {
    TrimEnd(TrimStart(s))
  }

  /** Lower case, as far as a comparison with ASCII text can tell: two letters outside ASCII have
      an ASCII lower case. */
  function LowerChar(c: char): char {
    if 'A' <= c <= 'Z' then (c as int + 32) as char
    else if c == '\U{212A}' then 'k'
    else if c == '\U{130}' then 'i'
    else c
  }

  function Lower(s: string): string {
    if s == [] then [] else [LowerChar(s[0])] + Lower(s[1..])
  }

  /** Upper case in the same sense. */
  function UpperChar(c: char): char {
    if 'a' <= c <= 'z' then (c as int - 32) as char
    else if c == '\U{17F}' then 'S'
    else if c == '\U{131}' then 'I'
    else c
  }

  function Upper(s: string): string {
    if s == [] then [] else [UpperChar(s[0])] + Upper(s[1..])
  }

  /** No white space at either end. */
  predicate IsTrimmed(s: string) {
    s == [] || (!IsSpace(s[0]) && !IsSpace(s[|s| - 1]))
  }

  predicate NoSpace(s: string) {
    forall i :: 0 <= i < |s| ==> !IsSpace(s[i])
  }

  lemma TrimKeepsTrimmed(s: string)
    requires IsTrimmed(s)
    ensures Trim(s) == s
  {
  }

  /** Concatenation may be grouped either way. */
  lemma Regroup(a: string, b: string, c: string)
    ensures (a + b) + c == a + (b + c)
  {
  }

  // -- Splitting and joining -----------------------------------------------------

  /** s cut at every separator: one part more than there are separators. */
  function Split(s: string, sep: char): (parts: seq<string>)
    ensures |parts| > 0
  {
    if s == [] then [[]]
    else
      var rest := Split(s[1..], sep);
      if s[0] == sep then [[]] + rest else [[s[0]] + rest[0]] + rest[1..]
  }

  function Join(parts: seq<string>, sep: char): string {
    if parts == [] then []
    else if |parts| == 1 then parts[0]
    else parts[0] + [sep] + Join(parts[1..], sep)
  }

  lemma {:induction false} SplitOnePart(s: string, sep: char, rest: string)
    requires sep !in s
    ensures Split(s, sep) == [s]
    ensures Split(s + [sep] + rest, sep) == [s] + Split(rest, sep)
  {
    if s == [] {
      assert ([] + [sep] + rest)[1..] == rest;
    } else {
      SplitOnePart(s[1..], sep, rest);
      assert (s + [sep] + rest)[1..] == s[1..] + [sep] + rest;
      assert [s[0]] + s[1..] == s;
    }
  }

  /** Splitting undoes joining for one or more parts that are free of the separator. */
  lemma {:induction false} SplitUndoesJoin(parts: seq<string>, sep: char)
    requires parts != [] && forall i :: 0 <= i < |parts| ==> sep !in parts[i]
    ensures Split(Join(parts, sep), sep) == parts
  {
    if |parts| == 1 {
      SplitOnePart(parts[0], sep, []);
      assert parts == [parts[0]];
    } else {
      SplitUndoesJoin(parts[1..], sep);
      SplitOnePart(parts[0], sep, Join(parts[1..], sep));
      assert parts == [parts[0]] + parts[1..];
    }
  }

  /** No part holds the separator. */
  lemma {:induction false} SplitPartsLack(s: string, sep: char, k: nat)
    requires k < |Split(s, sep)|
    ensures sep !in Split(s, sep)[k]
  {
    if s != [] {
      var rest := Split(s[1..], sep);
      if s[0] == sep {
        if k > 0 { SplitPartsLack(s[1..], sep, k - 1); }
      } else {
        SplitPartsLack(s[1..], sep, k);
      }
    }
  }

  /** Splitting and joining cut and glue: no character is lost. With SplitPartsLack this says all
      there is about splitting. */
  lemma {:induction false} JoinUndoesSplit(s: string, sep: char)
    ensures Join(Split(s, sep), sep) == s
  {
    if s != [] {
      var rest := Split(s[1..], sep);
      JoinUndoesSplit(s[1..], sep);
      if s[0] == sep {
        assert ([[]] + rest)[1..] == rest;
        assert Join([[]] + rest, sep) == [] + [sep] + Join(rest, sep);
      } else {
        var first := [s[0]] + rest[0];
        assert ([first] + rest[1..])[1..] == rest[1..];
        assert |rest| > 1 ==> first + [sep] + Join(rest[1..], sep) == [s[0]] + (rest[0] + [sep] + Join(rest[1..], sep));
      }
    }
  }

  // -- Trimming and case ----------------------------------------------------------

  predicate AllSpace(s: string) {
    forall i :: 0 <= i < |s| ==> IsSpace(s[i])
  }

  lemma {:induction false} TrimStartCuts(s: string) returns (a: string)
    ensures AllSpace(a) && s == a + TrimStart(s)
    ensures TrimStart(s) == [] || !IsSpace(TrimStart(s)[0])
  {
    if s != [] && IsSpace(s[0]) {
      var b := TrimStartCuts(s[1..]);
      a := [s[0]] + b;
    } else {
      a := [];
    }
  }

  lemma {:induction false} TrimEndCuts(s: string) returns (b: string)
    ensures AllSpace(b) && s == TrimEnd(s) + b
    ensures TrimEnd(s) == [] || !IsSpace(TrimEnd(s)[|TrimEnd(s)| - 1])
  {
    if s != [] && IsSpace(s[|s| - 1]) {
      var c := TrimEndCuts(s[..|s| - 1]);
      b := c + [s[|s| - 1]];
    } else {
      b := [];
    }
  }

  /** Trimming cuts the blanks at both ends, and only those. */
  lemma TrimCuts(s: string) returns (a: string, b: string)
    ensures AllSpace(a) && AllSpace(b) && s == a + Trim(s) + b && IsTrimmed(Trim(s))
  {
    a := TrimStartCuts(s);
    b := TrimEndCuts(TrimStart(s));
    assert Trim(s) != [] ==> Trim(s)[0] == TrimStart(s)[0];
  }

  /** Each ASCII letter has its two cases, character by character. */
  lemma {:induction false} CasesOfLetters(s: string, i: nat)
    requires i < |s|
    ensures |Lower(s)| == |s| == |Upper(s)|
    ensures 'a' <= s[i] <= 'z' ==> Lower(s)[i] == s[i] && Upper(s)[i] as int == s[i] as int - 32
    ensures 'A' <= s[i] <= 'Z' ==> Upper(s)[i] == s[i] && Lower(s)[i] as int == s[i] as int + 32
    ensures s[i] < 'A' || 'Z' < s[i] < 'a' || 'z' < s[i] < '\U{80}' ==> Lower(s)[i] == s[i] == Upper(s)[i]
  {
    CaseKeepsLength(s);
    if i > 0 { CasesOfLetters(s[1..], i - 1); }
  }

  lemma {:induction false} CaseKeepsLength(s: string)
    ensures |Lower(s)| == |s| == |Upper(s)|
  {
    if s != [] { CaseKeepsLength(s[1..]); }
  }

  // -- Decimal numbers --------------------------------------------------------------

  predicate IsDigit(c: char) {
    '0' <= c <= '9'
  }

  function Digit(d: nat): char
    requires d < 10
  {
    ('0' as int + d) as char
  }

  function Decimal(n: nat): (s: string)
    ensures s != [] && forall i :: 0 <= i < |s| ==> IsDigit(s[i])
  {
    if n < 10 then [Digit(n)] else Decimal(n / 10) + [Digit(n % 10)]
  }

  predicate AllDigits(s: string) {
    s != [] && forall i :: 0 <= i < |s| ==> IsDigit(s[i])
  }

  function DecimalValue(s: string): nat
    requires forall i :: 0 <= i < |s| ==> IsDigit(s[i])
  {
    if s == [] then 0 else
      var last := s[|s| - 1];
      assert IsDigit(last);
      10 * DecimalValue(s[..|s| - 1]) + (last as int - '0' as int)
  }

  lemma {:induction false} DecimalRoundTrip(n: nat)
    ensures DecimalValue(Decimal(n)) == n
    ensures n > 0 ==> Decimal(n)[0] != '0'
  {
    if n >= 10 {
      DecimalRoundTrip(n / 10);
      assert Decimal(n)[..|Decimal(n)| - 1] == Decimal(n / 10);
    } else {
      assert Decimal(n)[..0] == [];
    }
  }

  // -- Hexadecimal numbers ------------------------------------------------------------

  function Pow16(n: nat): (p: nat)
    ensures p > 0
  {
    if n == 0 then 1 else 16 * Pow16(n - 1)
  }

  function HexDigit(d: nat): char
    requires d < 16
  {
    if d < 10 then ('0' as int + d) as char else ('a' as int + d - 10) as char
  }

  /** The low digits of a number in lower case, most significant first. */
  function Hex(h: nat, digits: nat): (s: string)
    ensures |s| == digits
    ensures forall i :: 0 <= i < |s| ==> '0' <= s[i] <= '9' || 'a' <= s[i] <= 'f'
  {
    if digits == 0 then [] else Hex(h / 16, digits - 1) + [HexDigit(h % 16)]
  }

  /** The value of a digit in either case. */
  function HexDigitValue(c: char): Option<nat> {
    if '0' <= c <= '9' then Some(c as int - '0' as int)
    else if 'a' <= c <= 'f' then Some(c as int - 'a' as int + 10)
    else if 'A' <= c <= 'F' then Some(c as int - 'A' as int + 10)
    else None
  }

  function HexValue(s: string): Option<nat> {
    if s == [] then Some(0)
    else match (HexValue(s[..|s| - 1]), HexDigitValue(s[|s| - 1]))
      case (Some(high), Some(low)) => Some(16 * high + low)
      case _ => None
  }

  lemma {:induction false} HexRoundTrip(h: nat, digits: nat)
    requires h < Pow16(digits)
    ensures HexValue(Hex(h, digits)) == Some(h)
  {
    if digits > 0 {
      HexRoundTrip(h / 16, digits - 1);
      assert Hex(h, digits)[..digits - 1] == Hex(h / 16, digits - 1);
      assert Hex(h, digits)[digits - 1] == HexDigit(h % 16);
    }
  }
}
