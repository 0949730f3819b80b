/** Option values that are numbers, as the bridge reads them: 64-bit parsing and 64-bit nanosecond
    durations whose products wrap. */
module GoNumbers {
  import opened Common
  import opened Text

  const MAX_INT64 := 0x7fff_ffff_ffff_ffff
  const TWO_64 := 0x1_0000_0000_0000_0000
  const NANOS_PER_MILLI := 1_000_000
  const NANOS_PER_SECOND := 1_000_000_000

  predicate IsInt64(n: int) {
    -MAX_INT64 - 1 <= n <= MAX_INT64
  }

  /** The 64-bit two's complement value with the same low bits. */
  function Wrap64(n: int): (r: int)
    ensures IsInt64(r)
    ensures IsInt64(n) ==> r == n
  {
    var low := n % TWO_64;
    if low <= MAX_INT64 then low else low - TWO_64
  }

  /** strconv.ParseInt in base 10 for a signed width: an optional sign and digits; a value out of
      range is an error. */
  function ParseInt(s: string, max: nat): Option<int> {
    var signed := s != [] && (s[0] == '+' || s[0] == '-');
    var digits := if signed then s[1..] else s;
    if !AllDigits(digits) then None
    else
      var n: int := if signed && s[0] == '-' then 0 - DecimalValue(digits) else DecimalValue(digits);
      if -(max as int) - 1 <= n <= max then Some(n) else None
  }

  /** millisOption: nanoseconds. */
  function MillisOption(value: string): Option<int> {
    match ParseInt(value, MAX_INT64)
    case None => None
    case Some(ms) => if ms <= 0 then None else Some(Wrap64(ms * NANOS_PER_MILLI))
  }

  /** nonNegativeMillisOption. */
  function NonNegativeMillisOption(value: string): Option<int> {
    match ParseInt(value, MAX_INT64)
    case None => None
    case Some(ms) => if ms < 0 then None else Some(Wrap64(ms * NANOS_PER_MILLI))
  }

  /** int32Option. */
  function Int32Option(value: string): Option<int> {
    match ParseInt(value, 0x7fff_ffff)
    case None => None
    case Some(n) => if n <= 0 then None else Some(n)
  }

  /** boolOption. */
  function BoolOption(value: string): Option<bool> {
    var v := Lower(Trim(value));
    if v == "true" then Some(true) else if v == "false" then Some(false) else None
  }

  // -- The host's numbers arriving ---------------------------------------------------------------

  /** A number the host prints is read back unless it is out of range. */
  lemma PrintedIntIsReadBack(n: nat, max: nat)
    ensures ParseInt(Decimal(n), max) == if n <= max then Some(n) else None
  {
    var d := Decimal(n);
    assert IsDigit(d[0]);
    DecimalRoundTrip(n);
  }

  /** So is one with a sign, and nothing that is not digits behind at most one sign. */
  lemma SignedIntIsRead(n: nat, max: nat)
    ensures ParseInt(['+'] + Decimal(n), max) == if n <= max then Some(n as int) else None
    ensures ParseInt(['-'] + Decimal(n), max) == if n <= max + 1 then Some(-(n as int)) else None
  {
    var d := Decimal(n);
    assert (['+'] + d)[1..] == d && (['-'] + d)[1..] == d;
    DecimalRoundTrip(n);
  }

  /** The longest millisecond count whose nanoseconds fit: about 292 years. */
  const LONGEST_MILLIS := 9_223_372_036_854

  lemma NanosFit(ms: nat)
    ensures IsInt64(ms * NANOS_PER_MILLI) <==> ms <= LONGEST_MILLIS
  {
  }

  lemma WrapIsExactOnlyInRange(n: int)
    ensures Wrap64(n) == n <==> IsInt64(n)
  {
  }

  /** A typed duration is accepted with its own meaning exactly when it is positive and its
      nanoseconds fit in 64 bits. */
  lemma MillisKeepTheirMeaning(ms: nat)
    ensures MillisOption(Decimal(ms)) == Some(ms * NANOS_PER_MILLI) <==> 1 <= ms <= LONGEST_MILLIS
    ensures MillisOption(Decimal(ms)).None? <==> ms == 0 || ms > MAX_INT64
    ensures NonNegativeMillisOption(Decimal(ms)) == Some(ms * NANOS_PER_MILLI) <==> ms <= LONGEST_MILLIS
    ensures NonNegativeMillisOption(Decimal(ms)).None? <==> ms > MAX_INT64
  {
    PrintedIntIsReadBack(ms, MAX_INT64);
    NanosFit(ms);
    WrapIsExactOnlyInRange(ms * NANOS_PER_MILLI);
  }

  /** A typed count is accepted, as itself, exactly when it is positive and below 2^31; the host's
      type reaches 2^32 - 1. */
  lemma CountsKeepTheirMeaning(n: nat)
    ensures Int32Option(Decimal(n)) == if 1 <= n < 0x8000_0000 then Some(n) else None
  {
    PrintedIntIsReadBack(n, 0x7fff_ffff);
  }

  /** So a configured value can change its meaning in silence: this one, over 584 years, arrives as
      just over one minute. */
  lemma SomeMillisChangeMeaning()
    ensures MillisOption(Decimal(18_446_744_133_710)) == Some(60_000_448_384)
  {
    PrintedIntIsReadBack(18_446_744_133_710, MAX_INT64);
    assert 18_446_744_133_710 * NANOS_PER_MILLI == TWO_64 + 60_000_448_384;
  }
}
