/** JSON texts: a printer, and a parser by the grammar of RFC 8259 for objects (section 4), strings
    (section 7) and the non-negative integers of section 6, with insignificant white space
    (section 2). */
module Json {
  import opened Common
  import opened Text

  datatype Json = Str(text: string) | Num(n: nat) | Obj(members: Members)

  datatype Members = NoMore | Member(key: string, value: Json, rest: Members)

  // -- Printing -----------------------------------------------------------------------

  /** json_escape_into, one character. */
  function EscapeChar(c: char): (s: string)
    ensures s != [] && s[0] != '"'
  {
    if c == '"' then "\\\""
    else if c == '\\' then "\\\\"
    else if c == '\n' then "\\n"
    else if c == '\r' then "\\r"
    else if c == '\t' then "\\t"
    else if c < ' ' then "\\u" + Hex(c as nat, 4)
    else [c]
  }

  function Escape(s: string): string {
    if s == [] then [] else EscapeChar(s[0]) + Escape(s[1..])
  }

  function Quote(s: string): string {
    ['"'] + (Escape(s) + ['"'])
  }

  function Print(j: Json): string {
    match j
    case Str(text) => Quote(text)
    case Num(n) => Decimal(n)
    case Obj(members) => ['{'] + (PrintMembers(members) + ['}'])
  }

  function PrintMembers(ms: Members): string
    decreases ms, 0
  {
    match ms
    case NoMore => []
    case Member(key, value, rest) => Quote(key) + ([':'] + (Print(value) + PrintRest(rest)))
  }

  /** Members that come after others. */
  function PrintRest(ms: Members): string
    decreases ms, 1
  {
    if ms.NoMore? then [] else [','] + PrintMembers(ms)
  }

  // -- Parsing ------------------------------------------------------------------------

  /** What was read and the text after it. */
  datatype Parsed<T> = Parsed(value: T, rest: string)

  predicate IsJsonSpace(c: char) {
    c == ' ' || c == '\t' || c == '\n' || c == '\r'
  }

  function SkipSpace(s: string): (r: string)
    ensures |r| <= |s|
  {
    if s != [] && IsJsonSpace(s[0]) then SkipSpace(s[1..]) else s
  }

  /** Four hexadecimal digits at the front. */
  function HexUnit(s: string): Option<nat> {
    if |s| < 4 then None else HexValue(s[..4])
  }

  /** A \u escape, given what follows the u; the two halves of a surrogate pair are one
      character, and a half on its own is refused. */
  function ReadUnit(s: string): (r: Option<Parsed<char>>)
    ensures r.Some? ==> |r.value.rest| < |s|
  {
    match HexUnit(s)
    case None => None
    case Some(n) =>
      if n < 0xD800 || 0xE000 <= n < 0x1_0000 then Some(Parsed(n as char, s[4..]))
      else if n < 0xDC00 && "\\u" <= s[4..] then
        match HexUnit(s[6..])
        case None => None
        case Some(low) =>
          if 0xDC00 <= low < 0xE000 then
            Some(Parsed((0x1_0000 + (n - 0xD800) * 0x400 + (low - 0xDC00)) as char, s[10..]))
          else None
      else None
  }

  /** One possibly escaped character. */
  function ReadChar(s: string): (r: Option<Parsed<char>>)
    requires s != []
    ensures r.Some? ==> |r.value.rest| < |s|
  {
    if s[0] < ' ' then None
    else if s[0] != '\\' then Some(Parsed(s[0], s[1..]))
    else if |s| < 2 then None
    else match s[1]
      case '"' => Some(Parsed('"', s[2..]))
      case '\\' => Some(Parsed('\\', s[2..]))
      case '/' => Some(Parsed('/', s[2..]))
      case 'b' => Some(Parsed(8 as char, s[2..]))
      case 'f' => Some(Parsed(12 as char, s[2..]))
      case 'n' => Some(Parsed('\n', s[2..]))
      case 'r' => Some(Parsed('\r', s[2..]))
      case 't' => Some(Parsed('\t', s[2..]))
      case 'u' => ReadUnit(s[2..])
      case _ => None
  }

  /** The characters up to the closing quote. */
  function ReadChars(s: string): (r: Option<Parsed<string>>)
    ensures r.Some? ==> |r.value.rest| < |s|
    decreases |s|
  {
    if s == [] then None
    else if s[0] == '"' then Some(Parsed([], s[1..]))
    else match ReadChar(s)
      case None => None
      case Some(c) =>
        match ReadChars(c.rest)
        case None => None
        case Some(more) => Some(Parsed([c.value] + more.value, more.rest))
  }

  function DigitCount(s: string): (n: nat)
    ensures n <= |s| && forall i :: 0 <= i < n ==> IsDigit(s[i])
    ensures n < |s| ==> !IsDigit(s[n])
  {
    if s == [] || !IsDigit(s[0]) then 0 else 1 + DigitCount(s[1..])
  }

  /** An integer: no leading zeros. */
  function ReadNumber(s: string): (r: Option<Parsed<Json>>)
    requires s != [] && IsDigit(s[0])
    ensures r.Some? ==> |r.value.rest| < |s|
  {
    var n := DigitCount(s);
    if s[0] == '0' && n > 1 then None else Some(Parsed(Num(DecimalValue(s[..n])), s[n..]))
  }

  function ReadValue(s: string): (r: Option<Parsed<Json>>)
    ensures r.Some? ==> |r.value.rest| < |s|
    decreases |s|
  {
    var t := SkipSpace(s);
    if t == [] then None
    else if t[0] == '"' then
      match ReadChars(t[1..])
      case None => None
      case Some(p) => Some(Parsed(Str(p.value), p.rest))
    else if t[0] == '{' then
      var u := SkipSpace(t[1..]);
      if u != [] && u[0] == '}' then Some(Parsed(Obj(NoMore), u[1..]))
      else
        match ReadMembers(u)
        case None => None
        case Some(p) => Some(Parsed(Obj(p.value), p.rest))
    else if IsDigit(t[0]) then ReadNumber(t)
    else None
  }

  /** A quoted key and its colon. */
  function ReadKey(s: string): (r: Option<Parsed<string>>)
    ensures r.Some? ==> |r.value.rest| < |s|
  {
    if s == [] || s[0] != '"' then None
    else
      match ReadChars(s[1..])
      case None => None
      case Some(k) =>
        var t := SkipSpace(k.rest);
        if t == [] || t[0] != ':' then None else Some(Parsed(k.value, t[1..]))
  }

  /** One or more members and the closing brace. */
  function ReadMembers(s: string): (r: Option<Parsed<Members>>)
    ensures r.Some? ==> |r.value.rest| < |s|
    decreases |s|
  {
    match ReadKey(s)
    case None => None
    case Some(k) =>
      match ReadValue(k.rest)
      case None => None
      case Some(v) =>
        var u := SkipSpace(v.rest);
        if u == [] then None
        else if u[0] == '}' then Some(Parsed(Member(k.value, v.value, NoMore), u[1..]))
        else if u[0] == ',' then
          match ReadMembers(SkipSpace(u[1..]))
          case None => None
          case Some(m) => Some(Parsed(Member(k.value, v.value, m.value), m.rest))
        else None
  }

  /** A whole text. */
  function Parse(s: string): Option<Json> {
    match ReadValue(s)
    case None => None
    case Some(p) => if SkipSpace(p.rest) == [] then Some(p.value) else None
  }

  // -- Parsing undoes printing ------------------------------------------------------------

  lemma ReadHexEscape(n: nat, rest: string)
    requires n < 0xD800
    ensures ReadUnit(Hex(n, 4) + rest) == Some(Parsed(n as char, rest))
  {
    var s := Hex(n, 4) + rest;
    assert s[..4] == Hex(n, 4) && s[4..] == rest;
    assert Pow16(4) == 0x1_0000;
    HexRoundTrip(n, 4);
  }

  /** The escapes that are one letter. */
  predicate IsShortEscape(letter: char, c: char) {
    || (letter == '"' && c == '"') || (letter == '\\' && c == '\\') || (letter == 'n' && c == '\n')
    || (letter == 'r' && c == '\r') || (letter == 't' && c == '\t')
  }

  lemma ReadShortEscape(letter: char, c: char, rest: string)
    requires IsShortEscape(letter, c)
    ensures ReadChar(['\\', letter] + rest) == Some(Parsed(c, rest))
  {
    assert (['\\', letter] + rest)[2..] == rest;
  }

  lemma ReadLongEscape(n: nat, rest: string)
    requires n < 0x20
    ensures ReadChar("\\u" + Hex(n, 4) + rest) == Some(Parsed(n as char, rest))
  {
    var s := "\\u" + Hex(n, 4) + rest;
    assert s[2..] == Hex(n, 4) + rest;
    ReadHexEscape(n, rest);
  }

  lemma ReadEscaped(c: char, rest: string)
    ensures ReadChar(EscapeChar(c) + rest) == Some(Parsed(c, rest))
  {
    if c == '"' {
      ReadShortEscape('"', c, rest);
    } else if c == '\\' {
      ReadShortEscape('\\', c, rest);
    } else if c == '\n' {
      ReadShortEscape('n', c, rest);
    } else if c == '\r' {
      ReadShortEscape('r', c, rest);
    } else if c == '\t' {
      ReadShortEscape('t', c, rest);
    } else if c < ' ' {
      ReadLongEscape(c as nat, rest);
    } else {
      assert ([c] + rest)[1..] == rest;
    }
  }

  lemma ReadCharsStep(s: string, c: Parsed<char>, more: Parsed<string>)
    requires s != [] && s[0] != '"' && ReadChar(s) == Some(c) && ReadChars(c.rest) == Some(more)
    ensures ReadChars(s) == Some(Parsed([c.value] + more.value, more.rest))
  {
  }

  lemma {:induction false} ReadQuoted(text: string, rest: string)
    ensures ReadChars(Escape(text) + (['"'] + rest)) == Some(Parsed(text, rest))
  {
    if text == [] {
      assert [] + (['"'] + rest) == ['"'] + rest;
      assert (['"'] + rest)[1..] == rest;
    } else {
      var c, others := text[0], Escape(text[1..]);
      ReadQuoted(text[1..], rest);
      ReadQuotedStep(c, text[1..], others, rest);
      assert text == [c] + text[1..];
    }
  }

  lemma ReadQuotedStep(c: char, text: string, others: string, rest: string)
    requires ReadChars(others + (['"'] + rest)) == Some(Parsed(text, rest))
    ensures ReadChars((EscapeChar(c) + others) + (['"'] + rest)) == Some(Parsed([c] + text, rest))
  {
    var more := others + (['"'] + rest);
    ReadEscaped(c, more);
    Regroup(EscapeChar(c), others, ['"'] + rest);
    ReadCharsStep(EscapeChar(c) + more, Parsed(c, more), Parsed(text, rest));
  }

  predicate NoDigitFirst(rest: string) {
    rest == [] || !IsDigit(rest[0])
  }

  lemma {:induction false} ReadDecimal(n: nat, rest: string)
    requires NoDigitFirst(rest)
    ensures IsDigit((Decimal(n) + rest)[0]) && ReadNumber(Decimal(n) + rest) == Some(Parsed(Num(n), rest))
  {
    var s := Decimal(n) + rest;
    DecimalRoundTrip(n);
    CountDigits(Decimal(n), rest);
    assert s[..|Decimal(n)|] == Decimal(n) && s[|Decimal(n)|..] == rest;
  }

  lemma {:induction false} CountDigits(digits: string, rest: string)
    requires NoDigitFirst(rest) && forall i :: 0 <= i < |digits| ==> IsDigit(digits[i])
    ensures DigitCount(digits + rest) == |digits|
  {
    if digits == [] {
      assert digits + rest == rest;
    } else {
      assert (digits + rest)[1..] == digits[1..] + rest;
      CountDigits(digits[1..], rest);
    }
  }

  lemma ReadStringStep(s: string, p: Parsed<string>)
    requires s != [] && s[0] == '"' && ReadChars(s[1..]) == Some(p)
    ensures ReadValue(s) == Some(Parsed(Str(p.value), p.rest))
  {
    assert SkipSpace(s) == s;
  }

  lemma ReadString(text: string, rest: string)
    ensures ReadValue(Quote(text) + rest) == Some(Parsed(Str(text), rest))
  {
    var inner := Escape(text) + (['"'] + rest);
    Regroup(['"'], Escape(text) + ['"'], rest);
    Regroup(Escape(text), ['"'], rest);
    assert (['"'] + inner)[1..] == inner;
    ReadQuoted(text, rest);
    ReadStringStep(['"'] + inner, Parsed(text, rest));
  }

  lemma ReadKeyBack(key: string, rest: string)
    ensures ReadKey(Quote(key) + ([':'] + rest)) == Some(Parsed(key, rest))
  {
    var s := Quote(key) + ([':'] + rest);
    assert s[1..] == Escape(key) + (['"'] + ([':'] + rest));
    ReadQuoted(key, [':'] + rest);
    assert ([':'] + rest)[1..] == rest;
  }

  lemma ReadLastMember(s: string, k: Parsed<string>, v: Parsed<Json>, rest: string)
    requires ReadKey(s) == Some(k) && ReadValue(k.rest) == Some(v) && v.rest == ['}'] + rest
    ensures ReadMembers(s) == Some(Parsed(Member(k.value, v.value, NoMore), rest))
  {
    assert v.rest[1..] == rest;
  }

  lemma ReadEarlierMember(s: string, k: Parsed<string>, v: Parsed<Json>, others: string, m: Parsed<Members>)
    requires ReadKey(s) == Some(k) && ReadValue(k.rest) == Some(v) && v.rest == [','] + others
    requires others != [] && others[0] == '"' && ReadMembers(others) == Some(m)
    ensures ReadMembers(s) == Some(Parsed(Member(k.value, v.value, m.value), m.rest))
  {
    assert v.rest[1..] == others;
    assert SkipSpace(others) == others;
  }

  lemma ReadObjectStep(s: string, ms: Members, rest: string)
    requires |s| > 1 && s[0] == '{' && s[1] == '"' && ReadMembers(s[1..]) == Some(Parsed(ms, rest))
    ensures ReadValue(s) == Some(Parsed(Obj(ms), rest))
  {
    assert SkipSpace(s) == s && SkipSpace(s[1..]) == s[1..];
  }

  /** Reading a printed value gives the value back and stops right after it. */
  lemma {:induction false} ValueReadsBack(j: Json, rest: string)
    requires NoDigitFirst(rest)
    ensures ReadValue(Print(j) + rest) == Some(Parsed(j, rest))
    decreases j
  {
    match j
    case Str(text) => ReadString(text, rest);
    case Num(n) => ReadDecimal(n, rest);
    case Obj(members) =>
      if members.NoMore? {
        assert (['{'] + ([] + ['}']) + rest)[1..] == ['}'] + rest;
        assert (['}'] + rest)[1..] == rest;
      } else {
        ReadObject(members, PrintMembers(members), rest);
      }
  }

  lemma ReadObject(ms: Members, printed: string, rest: string)
    requires ms.Member? && printed == PrintMembers(ms)
    ensures ReadValue(['{'] + (printed + ['}']) + rest) == Some(Parsed(Obj(ms), rest))
    decreases ms, 1
  {
    var s := ['{'] + (printed + ['}']) + rest;
    assert printed[0] == '"';
    assert s[1..] == printed + (['}'] + rest);
    MembersReadBack(ms, rest);
    ReadObjectStep(s, ms, rest);
  }

  lemma {:induction false} MembersReadBack(ms: Members, rest: string)
    requires ms.Member?
    ensures ReadMembers(PrintMembers(ms) + (['}'] + rest)) == Some(Parsed(ms, rest))
    decreases ms, 0
  {
    var value, others := Print(ms.value), PrintRest(ms.rest);
    var after := others + (['}'] + rest);
    var s := PrintMembers(ms) + (['}'] + rest);
    ValueReadsBack(ms.value, after);
    ReadKeyBack(ms.key, value + after);
    MemberText(Quote(ms.key), value, others, ['}'] + rest);
    var k, v := Parsed(ms.key, value + after), Parsed(ms.value, after);
    if ms.rest.NoMore? {
      assert after == ['}'] + rest;
      ReadLastMember(s, k, v, rest);
    } else {
      MembersReadBack(ms.rest, rest);
      Regroup([','], PrintMembers(ms.rest), ['}'] + rest);
      StartsWithQuote(ms.rest, ['}'] + rest);
      ReadEarlierMember(s, k, v, PrintMembers(ms.rest) + (['}'] + rest), Parsed(ms.rest, rest));
    }
  }

  lemma StartsWithQuote(ms: Members, rest: string)
    requires ms.Member?
    ensures PrintMembers(ms) + rest != [] && (PrintMembers(ms) + rest)[0] == '"'
  {
    assert PrintMembers(ms)[0] == '"';
  }

  lemma MemberText(key: string, value: string, others: string, rest: string)
    ensures (key + ([':'] + (value + others))) + rest == key + ([':'] + (value + (others + rest)))
  {
  }

  /** Parsing a printed document gives the document back. */
  lemma PrintThenParse(j: Json)
    ensures Parse(Print(j)) == Some(j)
  {
    ValueReadsBack(j, []);
    assert Print(j) + [] == Print(j);
  }

  // -- No control characters ------------------------------------------------------------

  /** No character below the blank; in particular no NUL. */
  predicate NoControls(s: string) {
    forall i :: 0 <= i < |s| ==> s[i] >= ' '
  }

  lemma {:induction false} EscapeHasNoControls(s: string)
    ensures NoControls(Escape(s))
  {
    if s != [] {
      EscapeHasNoControls(s[1..]);
      assert NoControls(EscapeChar(s[0]));
    }
  }

  lemma {:induction false} PrintHasNoControls(j: Json)
    ensures NoControls(Print(j))
    decreases j
  {
    match j
    case Str(text) => EscapeHasNoControls(text);
    case Num(n) =>
      forall i | 0 <= i < |Decimal(n)| ensures Decimal(n)[i] >= ' ' { assert IsDigit(Decimal(n)[i]); }
    case Obj(members) => MembersHaveNoControls(members);
  }

  lemma {:induction false} MembersHaveNoControls(ms: Members)
    ensures NoControls(PrintMembers(ms))
    decreases ms
  {
    if ms.Member? {
      EscapeHasNoControls(ms.key);
      PrintHasNoControls(ms.value);
      MembersHaveNoControls(ms.rest);
    }
  }

  // -- What else the grammar says ------------------------------------------------------------

  /** The escapes of one letter that the printer does not use. */
  lemma OtherEscapes(rest: string)
    ensures ReadChar(['\\', '/'] + rest) == Some(Parsed('/', rest))
    ensures ReadChar(['\\', 'b'] + rest) == Some(Parsed(8 as char, rest))
    ensures ReadChar(['\\', 'f'] + rest) == Some(Parsed(12 as char, rest))
  {
    assert (['\\', '/'] + rest)[2..] == rest && (['\\', 'b'] + rest)[2..] == rest && (['\\', 'f'] + rest)[2..] == rest;
  }

  /** A character beyond the first plane, escaped as its two surrogates. */
  lemma SurrogatesAreOneCharacter(c: char, rest: string)
    requires c as nat >= 0x1_0000
    ensures var high, low := 0xD800 + (c as nat - 0x1_0000) / 0x400, 0xDC00 + (c as nat - 0x1_0000) % 0x400;
      ReadUnit(Hex(high, 4) + ("\\u" + (Hex(low, 4) + rest))) == Some(Parsed(c, rest))
  {
    var high, low := 0xD800 + (c as nat - 0x1_0000) / 0x400, 0xDC00 + (c as nat - 0x1_0000) % 0x400;
    var s := Hex(high, 4) + ("\\u" + (Hex(low, 4) + rest));
    assert Pow16(4) == 0x1_0000;
    HexRoundTrip(high, 4);
    HexRoundTrip(low, 4);
    assert s[..4] == Hex(high, 4) && s[4..] == "\\u" + (Hex(low, 4) + rest);
    assert s[6..] == Hex(low, 4) + rest && s[6..][..4] == Hex(low, 4) && s[10..] == rest;
    assert "\\u" <= s[4..];
  }

  lemma {:induction false} SkipsAll(blanks: string, s: string)
    requires forall i :: 0 <= i < |blanks| ==> blanks[i] in {' ', '\t', '\n', '\r'}
    ensures SkipSpace(blanks + s) == SkipSpace(s)
  {
    if blanks == [] {
      assert [] + s == s;
    } else {
      SkipsAll(blanks[1..], s);
      assert (blanks + s)[1..] == blanks[1..] + s;
    }
  }

  lemma ValueBehindSpace(s: string, t: string)
    requires SkipSpace(s) == SkipSpace(t)
    ensures ReadValue(s) == ReadValue(t)
  {
  }

  /** White space before a text means nothing. */
  lemma LeadingSpaceMeansNothing(blanks: string, s: string)
    requires forall i :: 0 <= i < |blanks| ==> blanks[i] in {' ', '\t', '\n', '\r'}
    ensures Parse(blanks + s) == Parse(s)
  {
    SkipsAll(blanks, s);
    ValueBehindSpace(blanks + s, s);
  }

  /** A text ends with its value, and a string holds no raw control character. */
  lemma NothingFollowsTheText(s: string, p: Parsed<Json>)
    requires ReadValue(s) == Some(p) && SkipSpace(p.rest) != []
    ensures Parse(s) == None
  {
  }

  lemma RawControlsAreRefused(s: string)
    requires s != [] && s[0] < ' '
    ensures ReadChar(s) == None
  {
  }

  /** A number has no leading zero. */
  lemma NoLeadingZeros(s: string)
    requires |s| > 1 && s[0] == '0' && IsDigit(s[1])
    ensures ReadNumber(s) == None
  {
  }
}
