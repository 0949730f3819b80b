/** The ABI lock: its file format and the decision the build takes from it. */
module AbiLock {
  import opened Common
  import opened Utf8
  import opened Text
  import opened Fnv
  import opened StripComments

  // -- Reading the file --------------------------------------------------------------

  /** The length of the first line, its newline not counted. */
  function LineLength(s: string): (n: nat)
    ensures n <= |s| && '\n' !in s[..n] && (n < |s| ==> s[n] == '\n')
  {
    if s == [] || s[0] == '\n' then 0
    else
      var n := LineLength(s[1..]);
      assert s[..n + 1] == [s[0]] + s[1..][..n];
      n + 1
  }

  function WithoutReturn(line: string): string {
    if line != [] && line[|line| - 1] == '\r' then line[..|line| - 1] else line
  }

  /** str::lines: a newline ends a line, with a carriage return before it; the last line may go
      without. */
  function Lines(s: string): seq<string> {
    if s == [] then []
    else
      var n := LineLength(s);
      if n < |s| then [WithoutReturn(s[..n])] + Lines(s[n + 1..]) else [s]
  }

  /** u64's parser: digits, one leading plus sign allowed, at most 2^64 - 1. */
  function ParseU64(s: string): Option<nat> {
    var digits := if s != [] && s[0] == '+' then s[1..] else s;
    if AllDigits(digits) && DecimalValue(digits) < MODULUS then Some(DecimalValue(digits)) else None
  }

  /** What follows the equals sign, if one comes next. */
  function AfterEquals(rest: string): Option<string> {
    var r := TrimStart(rest);
    if r != [] && r[0] == '=' then Some(Trim(r[1..])) else None
  }

  datatype LockFields = LockFields(version: Option<nat>, signature: Option<string>)

  const VERSION := "version"
  const SIGNATURE := "signature"

  /** The effect of one line: a later line overwrites an earlier one, also with a failure. */
  function ReadLine(fields: LockFields, raw: string): LockFields {
    var line := Trim(raw);
    if VERSION <= line then
      match AfterEquals(line[|VERSION|..])
      case None => fields.(version := None)
      case Some(v) => fields.(version := ParseU64(v))
    else if SIGNATURE <= line then fields.(signature := AfterEquals(line[|SIGNATURE|..]))
    else fields
  }

  function ReadLines(fields: LockFields, lines: seq<string>): LockFields
    decreases |lines|
  {
    if lines == [] then fields else ReadLines(ReadLine(fields, lines[0]), lines[1..])
  }

  datatype Lock = Lock(version: nat, signature: string)

  function Both(fields: LockFields): Option<Lock> {
    match (fields.version, fields.signature)
    case (Some(v), Some(s)) => Some(Lock(v, s))
    case _ => None
  }

  function ParseLock(src: string): Option<Lock> {
    Both(ReadLines(LockFields(None, None), Lines(src)))
  }

  /** parse_lock: two variables overwritten line by line. */
  method ParseLockLoop(src: string) returns (lock: Option<Lock>)
    ensures lock == ParseLock(src)
  {
    var version: Option<nat>, signature: Option<string> := None, None;
    var lines := Lines(src);
    for i := 0 to |lines|
      invariant ReadLines(LockFields(version, signature), lines[i..]) == ReadLines(LockFields(None, None), lines)
    {
      assert lines[i..][1..] == lines[i + 1..];
      var line := Trim(lines[i]);
      if VERSION <= line {
        var v := AfterEquals(line[|VERSION|..]);
        version := if v.Some? then ParseU64(v.value) else None;
      } else if SIGNATURE <= line {
        signature := AfterEquals(line[|SIGNATURE|..]);
      }
    }
    lock := Both(LockFields(version, signature));
  }

  // -- Printing and reading back --------------------------------------------------------

  function LockBody(version: nat, signature: string): string {
    "version = " + Decimal(version) + "\n" + ("signature = " + signature + "\n")
  }

  lemma {:induction false} LineLengthIs(line: string, rest: string)
    requires '\n' !in line
    ensures LineLength(line + "\n" + rest) == |line|
  {
    var s := line + "\n" + rest;
    if line != [] {
      assert s[1..] == line[1..] + "\n" + rest;
      LineLengthIs(line[1..], rest);
    }
  }

  lemma OneLine(line: string, rest: string)
    requires '\n' !in line && (line == [] || line[|line| - 1] != '\r')
    ensures Lines(line + "\n" + rest) == [line] + Lines(rest)
  {
    var s := line + "\n" + rest;
    var n := LineLength(s);
    LineLengthIs(line, rest);
    assert s[..n] == line && s[n + 1..] == rest;
  }

  lemma DigitsAreNotSpace(n: nat)
    ensures IsTrimmed(Decimal(n)) && '\n' !in Decimal(n) && ParseU64(Decimal(n)) == if n < MODULUS then Some(n) else None
  {
    var d := Decimal(n);
    forall i | 0 <= i < |d| ensures d[i] != '\n' && d[i] != '+' && !IsSpace(d[i]) {
      assert IsDigit(d[i]);
    }
    DecimalRoundTrip(n);
  }

  lemma TrimOfBlank(value: string)
    requires IsTrimmed(value)
    ensures Trim([' '] + value) == value
  {
    assert ([' '] + value)[1..] == value;
    TrimKeepsTrimmed(value);
  }

  /** A line of the form "key = value" gives its value back. */
  lemma KeyLine(key: string, value: string)
    requires IsTrimmed(key) && key != [] && IsTrimmed(value) && value != []
    ensures Trim(key + " = " + value) == key + " = " + value
    ensures AfterEquals((key + " = " + value)[|key|..]) == Some(value)
  {
    var line := key + " = " + value;
    TrimKeepsTrimmed(line);
    var rest := line[|key|..];
    assert rest == " = " + value;
    assert rest[1..] == "= " + value;
    assert TrimStart(rest) == "= " + value;
    assert ("= " + value)[1..] == [' '] + value;
    TrimOfBlank(value);
  }

  lemma TwoLinesOfBody(first: string, second: string)
    requires '\n' !in first && first != [] && first[|first| - 1] != '\r'
    requires '\n' !in second && second != [] && second[|second| - 1] != '\r'
    ensures Lines(first + "\n" + (second + "\n")) == [first, second]
  {
    OneLine(first, second + "\n");
    OneLine(second, "");
    assert second + "\n" + "" == second + "\n";
  }

  lemma LastOfKeyLine(key: string, value: string)
    requires value != [] && '\n' !in key && '\n' !in value
    ensures var line := key + " = " + value;
      '\n' !in line && line != [] && line[|line| - 1] == value[|value| - 1] && key <= line
  {
  }

  /** Printing then parsing the lock gives back the version and the signature. */
  lemma PrintThenParse(version: nat, signature: string)
    requires version < MODULUS
    requires signature != [] && IsTrimmed(signature) && '\n' !in signature
    ensures ParseLock(LockBody(version, signature)) == Some(Lock(version, signature))
  {
    var first, second := VERSION + " = " + Decimal(version), SIGNATURE + " = " + signature;
    DigitsAreNotSpace(version);
    KeyLine(VERSION, Decimal(version));
    KeyLine(SIGNATURE, signature);
    LastOfKeyLine(VERSION, Decimal(version));
    LastOfKeyLine(SIGNATURE, signature);
    TwoLinesOfBody(first, second);
    BodyIsTwoLines(version, signature);
    TwoLines(first, second, version, signature);
  }

  lemma BodyIsTwoLines(version: nat, signature: string)
    ensures LockBody(version, signature) ==
      VERSION + " = " + Decimal(version) + "\n" + (SIGNATURE + " = " + signature + "\n")
  {
    assert VERSION + " = " == "version = " && SIGNATURE + " = " == "signature = ";
  }

  lemma TwoLines(first: string, second: string, version: nat, signature: string)
    requires Trim(first) == first && Trim(second) == second
    requires VERSION <= first && AfterEquals(first[|VERSION|..]) == Some(Decimal(version))
    requires SIGNATURE <= second && AfterEquals(second[|SIGNATURE|..]) == Some(signature)
    requires ParseU64(Decimal(version)) == Some(version)
    ensures ReadLines(LockFields(None, None), [first, second]) == LockFields(Some(version), Some(signature))
  {
    assert VERSION[0] != second[0];
    var fields := LockFields(Some(version), None);
    assert ReadLine(LockFields(None, None), first) == fields;
    assert ReadLine(fields, second) == LockFields(Some(version), Some(signature));
    assert [first, second][1..] == [second] && [second][1..] == [];
    assert ReadLines(fields, [second]) == ReadLine(fields, second);
  }

  // -- Bytes of the signature -------------------------------------------------------------

  /** The UTF-8 encoding of a character. */
  function EncodeChar(c: char): Bytes {
    var n := c as nat;
    if n < 0x80 then [n as byte]
    else if n < 0x800 then [(0xC0 + n / 64) as byte, (0x80 + n % 64) as byte]
    else if n < 0x1_0000 then
      [(0xE0 + n / 4096) as byte, (0x80 + n / 64 % 64) as byte, (0x80 + n % 64) as byte]
    else
      [(0xF0 + n / 262144) as byte, (0x80 + n / 4096 % 64) as byte, (0x80 + n / 64 % 64) as byte,
       (0x80 + n % 64) as byte]
  }

  function Encode(s: string): Bytes {
    if s == [] then [] else EncodeChar(s[0]) + Encode(s[1..])
  }

  lemma {:induction false} EncodeOfConcat(a: string, b: string)
    ensures Encode(a + b) == Encode(a) + Encode(b)
  {
    if a == [] {
      assert a + b == b;
    } else {
      assert (a + b)[1..] == a[1..] + b;
      EncodeOfConcat(a[1..], b);
    }
  }

  /** The fingerprint a header gets. */
  function Fingerprint(header: string): string {
    Hex(Fnv1a(Encode(AbiSignature(header))), 16)
  }

  // -- The decision -------------------------------------------------------------------------

  datatype Verdict = Accepted | ContractChanged | BothChanged | VersionChanged | Missing | Malformed

  /** The build's decision, given the lock file if there is one. */
  function Check(file: Option<string>, version: nat, signature: string): Verdict {
    match file
    case None => Missing
    case Some(text) =>
      match ParseLock(text)
      case None => Malformed
      case Some(lock) =>
        match (lock.signature == signature, lock.version == version)
        case (true, true) => Accepted
        case (false, true) => ContractChanged
        case (false, false) => BothChanged
        case (true, false) => VersionChanged
  }

  lemma FingerprintIsHex(header: string)
    ensures |Fingerprint(header)| == 16 && IsTrimmed(Fingerprint(header)) && '\n' !in Fingerprint(header)
  {
    var f := Fingerprint(header);
    forall i | 0 <= i < |f| ensures !IsSpace(f[i]) && f[i] != '\n' {
      assert '0' <= f[i] <= '9' || 'a' <= f[i] <= 'f';
    }
  }

  /** A lock regenerated from one header and version is later judged by exactly two questions:
      did the hash of the signature move, and did the version. */
  lemma RegeneratedLockDecides(header: string, version: nat, header': string, version': nat)
    requires version < MODULUS && version' < MODULUS
    ensures var same := Fnv1a(Encode(AbiSignature(header))) == Fnv1a(Encode(AbiSignature(header')));
      Check(Some(LockBody(version, Fingerprint(header))), version', Fingerprint(header')) ==
        if same && version == version' then Accepted
        else if same then VersionChanged
        else if version == version' then ContractChanged
        else BothChanged
  {
    FingerprintIsHex(header);
    PrintThenParse(version, Fingerprint(header));
    HexTellsHashesApart(Fnv1a(Encode(AbiSignature(header))), Fnv1a(Encode(AbiSignature(header'))));
  }

  /** Editing comments or widening white space never trips the lock. */
  lemma CosmeticEditsPass(a: seq<Segment>, b: seq<Segment>, version: nat)
    requires version < MODULUS && WellFormed(a) && WellFormed(b)
    requires SameButForCommentText(a, b) || Squash(Skeleton(a)) == Squash(Skeleton(b))
    ensures Check(Some(LockBody(version, Fingerprint(Render(a)))), version, Fingerprint(Render(b))) == Accepted
  {
    if SameButForCommentText(a, b) {
      CommentTextDoesNotMatter(a, b);
    } else {
      WhiteSpaceRunsDoNotMatter(a, b);
    }
    RegeneratedLockDecides(Render(a), version, Render(b), version);
  }

  /** Changing one ASCII character of the signature into another always trips the lock. */
  lemma OneCharacterEditIsCaught(header: string, version: nat, header': string, version': nat, i: nat)
    requires version < MODULUS && version' < MODULUS
    requires var a, b := AbiSignature(header), AbiSignature(header');
      |a| == |b| && i < |a| && a[..i] == b[..i] && a[i + 1..] == b[i + 1..]
      && a[i] != b[i] && a[i] as nat < 0x80 && b[i] as nat < 0x80
    ensures Check(Some(LockBody(version, Fingerprint(header))), version', Fingerprint(header'))
         == if version == version' then ContractChanged else BothChanged
  {
    var a, b := AbiSignature(header), AbiSignature(header');
    EncodeAround(a, i);
    EncodeAround(b, i);
    var at := |Encode(a[..i])|;
    assert Encode(a)[..at] == Encode(b)[..at];
    assert Encode(a)[at + 1..] == Encode(b)[at + 1..];
    OneByteEditChangesTheHash(Encode(a), Encode(b), at);
    RegeneratedLockDecides(header, version, header', version');
  }

  lemma EncodeAround(s: string, i: nat)
    requires i < |s| && s[i] as nat < 0x80
    ensures Encode(s) == Encode(s[..i]) + [s[i] as nat as byte] + Encode(s[i + 1..])
  {
    assert s == s[..i] + s[i..];
    EncodeOfConcat(s[..i], s[i..]);
    assert s[i..][1..] == s[i + 1..];
  }
}
