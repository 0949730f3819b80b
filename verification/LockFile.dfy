/** The lock file in general, not only as it is printed: which lines count, and what the build
    decides from any file. */
module LockFile {
  import opened Common
  import opened Utf8
  import opened Text
  import opened Fnv
  import opened AbiLock

  // -- Which lines count -----------------------------------------------------------------

  lemma {:induction false} TrimStartDropsBlanks(blanks: string, rest: string)
    requires AllSpace(blanks) && (rest == [] || !IsSpace(rest[0]))
    ensures TrimStart(blanks + rest) == rest
  {
    if blanks == [] {
      assert [] + rest == rest;
    } else {
      assert (blanks + rest)[1..] == blanks[1..] + rest;
      TrimStartDropsBlanks(blanks[1..], rest);
    }
  }

  /** A key's line has a value when an equals sign comes next, blanks aside: the rest of the line
      without the blanks around it. */
  lemma ValueOfLine(blanks: string, value: string)
    requires AllSpace(blanks)
    ensures AfterEquals(blanks + (['='] + value)) == Some(Trim(value))
  {
    TrimStartDropsBlanks(blanks, ['='] + value);
    assert (['='] + value)[1..] == value;
  }

  lemma NoValueOfLine(blanks: string, rest: string)
    requires AllSpace(blanks) && (rest == [] || (!IsSpace(rest[0]) && rest[0] != '='))
    ensures AfterEquals(blanks + rest) == None
  {
    TrimStartDropsBlanks(blanks, rest);
  }

  /** A version is digits, with one plus sign allowed, and at most 2^64 - 1. */
  lemma VersionsAreRead(n: nat, text: string)
    requires text == Decimal(n) || text == ['+'] + Decimal(n)
    ensures ParseU64(text) == if n < 0x1_0000_0000_0000_0000 then Some(n) else None
  {
    var d := Decimal(n);
    DecimalRoundTrip(n);
    assert IsDigit(d[0]);
    assert text != d ==> text[1..] == d;
  }

  /** The last line that starts with a key, blanks around it dropped. */
  function LastWith(lines: seq<string>, key: string): Option<string> {
    if lines == [] then None
    else
      var line := Trim(lines[|lines| - 1]);
      if key <= line then Some(line) else LastWith(lines[..|lines| - 1], key)
  }

  lemma {:induction false} ReadOneMore(fields: LockFields, lines: seq<string>, last: string)
    ensures ReadLines(fields, lines + [last]) == ReadLine(ReadLines(fields, lines), last)
    decreases |lines|
  {
    if lines == [] {
      assert [] + [last] == [last] && [last][1..] == [];
    } else {
      assert (lines + [last])[1..] == lines[1..] + [last];
      ReadOneMore(ReadLine(fields, lines[0]), lines[1..], last);
    }
  }

  function VersionIn(line: Option<string>): Option<nat> {
    if line.None? || !("version" <= line.value) then None
    else
      match AfterEquals(line.value[7..])
      case None => None
      case Some(v) => ParseU64(v)
  }

  function SignatureIn(line: Option<string>): Option<string> {
    if line.None? || !("signature" <= line.value) then None else AfterEquals(line.value[9..])
  }

  lemma KeysDiffer(line: string)
    ensures !("version" <= line && "signature" <= line)
  {
    assert "version"[0] == 'v' && "signature"[0] == 's';
  }

  lemma {:induction false} LastLinesDecide(lines: seq<string>)
    ensures ReadLines(LockFields(None, None), lines) ==
      LockFields(VersionIn(LastWith(lines, "version")), SignatureIn(LastWith(lines, "signature")))
  {
    if lines != [] {
      var front, last := lines[..|lines| - 1], lines[|lines| - 1];
      assert lines == front + [last];
      LastLinesDecide(front);
      ReadOneMore(LockFields(None, None), front, last);
      KeysDiffer(Trim(last));
    }
  }

  /** A lock is read from a file exactly when the last line of each key has a value, and the
      version is a number: an earlier line never counts, and a later one that cannot be read takes
      the value away. */
  lemma LockIsReadExactly(src: string, version: nat, signature: string)
    ensures ParseLock(src) == Some(Lock(version, signature)) <==>
      && VersionIn(LastWith(Lines(src), "version")) == Some(version)
      && SignatureIn(LastWith(Lines(src), "signature")) == Some(signature)
  {
    LastLinesDecide(Lines(src));
  }

  // -- The decision ------------------------------------------------------------------------

  /** The build goes through exactly when there is a lock, and it holds this very version and
      signature; every other case has its own complaint. */
  lemma BuildGoesThroughExactly(file: Option<string>, version: nat, signature: string)
    ensures var lock := if file.Some? then ParseLock(file.value) else None;
      && (Check(file, version, signature) == Accepted <==> lock == Some(Lock(version, signature)))
      && (Check(file, version, signature) == Missing <==> file.None?)
      && (Check(file, version, signature) == Malformed <==> file.Some? && lock.None?)
      && (Check(file, version, signature) == ContractChanged <==>
            lock.Some? && lock.value.signature != signature && lock.value.version == version)
      && (Check(file, version, signature) == VersionChanged <==>
            lock.Some? && lock.value.signature == signature && lock.value.version != version)
      && (Check(file, version, signature) == BothChanged <==>
            lock.Some? && lock.value.signature != signature && lock.value.version != version)
  {
  }

  // -- The bytes that are hashed -------------------------------------------------------------

  /** The code point of a character's bytes, by section 3 of RFC 3629. */
  function CodePoint(b: Bytes): nat
    requires 0 < |b| <= 4
  {
    if |b| == 1 then b[0] as nat
    else if |b| == 2 then (b[0] as nat) % 32 * 64 + (b[1] as nat) % 64
    else if |b| == 3 then (b[0] as nat) % 16 * 4096 + (b[1] as nat) % 64 * 64 + (b[2] as nat) % 64
    else
      (b[0] as nat) % 8 * 262144 + (b[1] as nat) % 64 * 4096 + (b[2] as nat) % 64 * 64 + (b[3] as nat) % 64
  }

  lemma CharsAreScalars(c: char)
    ensures (c as nat) < 0xD800 || 0xE000 <= (c as nat) < 0x11_0000
  {
  }

  lemma LastDigit(n: nat, high: nat, low: nat)
    requires n == high * 64 + low && low < 64
    ensures n / 64 == high && n % 64 == low
  {
  }

  /** The four parts of a code point, six bits each behind the first. */
  lemma FourParts(n: nat, top: nat, high: nat, middle: nat, low: nat)
    requires high < 64 && middle < 64 && low < 64
    requires n == top * 262144 + high * 4096 + middle * 64 + low
    ensures n / 262144 == top && n / 4096 % 64 == high && n / 64 % 64 == middle && n % 64 == low
  {
    var second := top * 64 + high;
    var third := second * 64 + middle;
    LastDigit(n, third, low);
    LastDigit(third, second, middle);
    LastDigit(second, top, high);
    assert n / 64 / 64 == n / 4096 && n / 4096 / 64 == n / 262144;
  }

  lemma TwoBytes(n: nat)
    requires 0x80 <= n < 0x800
    ensures var b: Bytes := [(0xC0 + n / 64) as byte, (0x80 + n % 64) as byte];
            CharLen(b) == 2 && CodePoint(b) == n
  {
  }

  lemma ThreeBytes(n: nat)
    requires 0x800 <= n < 0xD800 || 0xE000 <= n < 0x1_0000
    ensures var b: Bytes := [(0xE0 + n / 4096) as byte, (0x80 + n / 64 % 64) as byte, (0x80 + n % 64) as byte];
            CharLen(b) == 3 && CodePoint(b) == n
  {
    var high, middle, low := n / 4096, n / 64 % 64, n % 64;
    assert n == high * 4096 + middle * 64 + low;
    assert (0xE0 + high) % 16 == high && (0x80 + middle) % 64 == middle && (0x80 + low) % 64 == low;
  }

  lemma FourBytes(n: nat)
    requires 0x1_0000 <= n < 0x11_0000
    ensures var b: Bytes := [(0xF0 + n / 262144) as byte, (0x80 + n / 4096 % 64) as byte, (0x80 + n / 64 % 64) as byte,
                             (0x80 + n % 64) as byte];
            CharLen(b) == 4 && CodePoint(b) == n
  {
    var top, high, middle, low := n / 262144, n / 4096 % 64, n / 64 % 64, n % 64;
    assert n / 4096 / 64 == top && n / 64 / 64 == n / 4096;
    assert n == top * 262144 + high * 4096 + middle * 64 + low;
    SixBits(top, high, middle, low);
  }

  lemma SixBits(top: nat, high: nat, middle: nat, low: nat)
    requires top < 8 && high < 64 && middle < 64 && low < 64
    ensures (0xF0 + top) % 8 == top && (0x80 + high) % 64 == high
    ensures (0x80 + middle) % 64 == middle && (0x80 + low) % 64 == low
  {
  }

  /** The encoding of a character is one character's bytes, and they spell it. */
  lemma EncodeCharIsUtf8(c: char)
    ensures var b := EncodeChar(c); CharLen(b) == |b| > 0 && CodePoint(b) == c as nat
  {
    var n := c as nat;
    CharsAreScalars(c);
    if 0x80 <= n < 0x800 {
      TwoBytes(n);
    } else if 0x800 <= n < 0x1_0000 {
      ThreeBytes(n);
    } else if 0x1_0000 <= n {
      FourBytes(n);
    }
  }

  lemma TwoBytesSpell(b: Bytes)
    requires |b| == 2 && CharLen(b) == 2
    ensures 0x80 <= CodePoint(b) < 0x800
    ensures b == [(0xC0 + CodePoint(b) / 64) as byte, (0x80 + CodePoint(b) % 64) as byte]
  {
    var high, low := b[0] as nat - 0xC0, b[1] as nat - 0x80;
    assert CodePoint(b) == high * 64 + low;
  }

  lemma ThreeBytesSpell(b: Bytes)
    requires |b| == 3 && CharLen(b) == 3
    ensures 0x800 <= CodePoint(b) < 0xD800 || 0xE000 <= CodePoint(b) < 0x1_0000
    ensures b == [(0xE0 + CodePoint(b) / 4096) as byte, (0x80 + CodePoint(b) / 64 % 64) as byte,
                  (0x80 + CodePoint(b) % 64) as byte]
  {
    var high, middle, low := b[0] as nat - 0xE0, b[1] as nat - 0x80, b[2] as nat - 0x80;
    SixBits(0, middle, low, 0);
    FourParts(CodePoint(b), 0, high, middle, low);
  }

  lemma FourBytesSpell(b: Bytes)
    requires |b| == 4 && CharLen(b) == 4
    ensures 0x1_0000 <= CodePoint(b) < 0x11_0000
    ensures b == [(0xF0 + CodePoint(b) / 262144) as byte, (0x80 + CodePoint(b) / 4096 % 64) as byte,
                  (0x80 + CodePoint(b) / 64 % 64) as byte, (0x80 + CodePoint(b) % 64) as byte]
  {
    var top, high, middle, low := b[0] as nat - 0xF0, b[1] as nat - 0x80, b[2] as nat - 0x80, b[3] as nat - 0x80;
    SixBits(top, high, middle, low);
    FourParts(CodePoint(b), top, high, middle, low);
  }

  /** The grammar's characters are the encodings and no others: no overlong form, no surrogate and
      nothing beyond the last code point. */
  lemma CharactersAreEncodings(b: Bytes)
    requires 0 < CharLen(b) == |b|
    ensures CodePoint(b) < 0xD800 || 0xE000 <= CodePoint(b) < 0x11_0000
    ensures EncodeChar(CodePoint(b) as char) == b
  {
    if |b| == 2 {
      TwoBytesSpell(b);
    } else if |b| == 3 {
      ThreeBytesSpell(b);
    } else if |b| == 4 {
      FourBytesSpell(b);
    }
  }

  lemma CharLenOfConcat(a: Bytes, b: Bytes)
    requires CharLen(a) == |a| > 0
    ensures CharLen(a + b) == |a|
  {
    CharLenOfPrefix(a + b, |a|);
    assert (a + b)[..|a|] == a;
  }

  /** The bytes that are hashed are the text's own UTF-8. */
  lemma {:induction false} EncodeIsUtf8(s: string)
    ensures Valid(Encode(s))
  {
    if s != [] {
      var first, more := EncodeChar(s[0]), Encode(s[1..]);
      EncodeIsUtf8(s[1..]);
      EncodeCharIsUtf8(s[0]);
      CharLenOfConcat(first, more);
      assert (first + more)[|first|..] == more;
    }
  }
}
