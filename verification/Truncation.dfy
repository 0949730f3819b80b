/**
  Error text crossing the boundary: the Go and the Rust back-off loops that cut it at a
  character boundary, and how a handler's outcome reaches the engine and the dead-letter
  reason.
 */
module Truncation {
  import opened Common
  import opened Utf8

  /** The longest prefix of s within limit that is valid UTF-8. */
  ghost predicate IsLongestValidPrefix(s: Bytes, limit: nat, n: nat) {
    && n <= limit && n <= |s| && Valid(s[..n])
    && forall m :: n < m <= limit && m <= |s| ==> !Valid(s[..m])
  }

  /** Position m is inside a character: a loop that is there steps back. */
  predicate StepsBack(s: Bytes, m: nat) {
    m < |s| && Continuation(s[m])
  }

  /** Where a loop that starts at min(limit, |s|) and steps back over continuation bytes
      stops, for any bytes. */
  ghost predicate BacksOffTo(s: Bytes, limit: nat, n: nat) {
    && n <= limit && n <= |s|
    && (n == 0 || n == |s| || !Continuation(s[n]))
    && forall m :: n < m <= limit && m <= |s| ==> StepsBack(s, m)
  }

  lemma BacksOffAtMost(s: Bytes, limit: nat, n: nat, m: nat)
    requires BacksOffTo(s, limit, n) && m <= limit && m <= |s|
    requires m == 0 || m == |s| || !Continuation(s[m])
    ensures m <= n
  {
    assert n < m ==> StepsBack(s, m);
  }

  /** Two loops that satisfy the predicate stop at the same place. */
  lemma BackOffIsUnique(s: Bytes, limit: nat, n: nat, m: nat)
    requires BacksOffTo(s, limit, n) && BacksOffTo(s, limit, m)
    ensures n == m
  {
    BacksOffAtMost(s, limit, n, m);
    BacksOffAtMost(s, limit, m, n);
  }

  /** On valid text backing off finds the longest valid prefix, at most three bytes short of
      the limit. */
  lemma BackOffFindsLongestPrefix(s: Bytes, limit: nat, n: nat)
    requires Valid(s) && BacksOffTo(s, limit, n)
    ensures IsLongestValidPrefix(s, limit, n)
    ensures (if limit <= |s| then limit else |s|) - n <= 3
  {
    CutsBetweenCharacters(s, n);
    forall m | n < m <= limit && m <= |s| ensures !Valid(s[..m]) {
      assert StepsBack(s, m);
      CutsBetweenCharacters(s, m);
    }
    var start := if limit <= |s| then limit else |s|;
    assert n < start ==> StepsBack(s, start);
    forall i | n < i <= start ensures i < |s| && Continuation(s[i]) {
      assert StepsBack(s, i);
    }
    if start - n > 3 {
      CharactersAreShort(s, n + 1);
    }
  }

  /** The first byte of non-empty text survives any limit of at least four bytes. */
  lemma LongestPrefixIsNonEmpty(s: Bytes, limit: nat, n: nat)
    requires Valid(s) && s != [] && limit >= 4 && IsLongestValidPrefix(s, limit, n)
    ensures n > 0
  {
    CharLenOfPrefix(s, CharLen(s));
    assert s[..CharLen(s)][CharLen(s)..] == [];
    assert Valid(s[..CharLen(s)]);
  }

  /** truncateToRuneBoundary. */
  method TruncateToRuneBoundary(msg: Bytes, limit: nat) returns (n: nat)
    ensures BacksOffTo(msg, limit, n)
  {
    n := |msg|;
    if n > limit {
      n := limit;
      while n > 0 && Continuation(msg[n])
        invariant n <= limit
        invariant forall m :: n < m <= limit ==> StepsBack(msg, m)
      {
        n := n - 1;
      }
    }
  }

  /** A C int behind a pointer. */
  class IntCell {
    var value: int
    constructor (v: int)
      ensures value == v
    {
      value := v;
    }
  }

  /** str::is_char_boundary. */
  predicate IsCharBoundary(s: Bytes, n: nat) {
    n == 0 || n == |s| || (n < |s| && !Continuation(s[n]))
  }

  /** write_c_err: the caller owns a buffer of at least cap bytes. */
  method WriteCErr(buf: array?<byte>, cap: int, lenOut: IntCell?, s: Bytes)
    requires buf != null ==> cap <= buf.Length
    modifies buf, lenOut
    ensures buf == null || lenOut == null || cap <= 0 ==>
              (buf != null ==> buf[..] == old(buf[..])) && (lenOut != null ==> lenOut.value == old(lenOut.value))
    ensures buf != null && lenOut != null && cap > 0 ==>
              0 <= lenOut.value <= buf.Length && BacksOffTo(s, cap, lenOut.value)
              && buf[..lenOut.value] == s[..lenOut.value]
              && buf[lenOut.value..] == old(buf[..])[lenOut.value..]
  {
    if buf == null || lenOut == null || cap <= 0 { return; }
    var n := if |s| <= cap then |s| else cap;
    while n > 0 && !IsCharBoundary(s, n)
      invariant 0 <= n <= cap && n <= |s|
      invariant forall m :: n < m <= cap && m <= |s| ==> StepsBack(s, m)
    {
      n := n - 1;
    }
    forall i | 0 <= i < n { buf[i] := s[i]; }
    lenOut.value := n;
  }

  /** writeInitErr. */
  method WriteInitErr(errBuf: array?<byte>, errCap: int, errLenOut: IntCell?, msg: Bytes)
    requires errBuf != null ==> errCap <= errBuf.Length
    modifies errBuf, errLenOut
    ensures errBuf == null || errLenOut == null || errCap <= 0 ==>
              (errBuf != null ==> errBuf[..] == old(errBuf[..]))
              && (errLenOut != null ==> errLenOut.value == old(errLenOut.value))
    ensures errBuf != null && errLenOut != null && errCap > 0 ==>
              0 <= errLenOut.value <= errBuf.Length && BacksOffTo(msg, errCap, errLenOut.value)
              && errBuf[..errLenOut.value] == msg[..errLenOut.value]
              && errBuf[errLenOut.value..] == old(errBuf[..])[errLenOut.value..]
  {
    if errBuf == null || errLenOut == null || errCap <= 0 { return; }
    var n := TruncateToRuneBoundary(msg, errCap);
    forall i | 0 <= i < n { errBuf[i] := msg[i]; }
    errLenOut.value := n;
  }

  // -- A handler's outcome ---------------------------------------------------------

  /** What the host's process handler did, when there is a handler set to ask. */
  datatype Handling = NoHandlers | Accepted(traits: int) | Rejected(text: Bytes) | Panicked

  /** "panic in process callback" in ASCII. */
  const PANIC_TEXT: Bytes := [
    112, 97, 110, 105, 99, 32, 105, 110, 32, 112, 114, 111, 99, 101, 115, 115, 32, 99, 97, 108,
    108, 98, 97, 99, 107]

  /** The bytes of an ASCII text. */
  function Ascii(s: string): Bytes {
    seq(|s|, i requires 0 <= i < |s| => (s[i] as int % 128) as byte)
  }

  lemma PanicTextIsAscii()
    ensures PANIC_TEXT == Ascii("panic in process callback")
  {
    var text := "panic in process callback";
    assert |PANIC_TEXT| == |text|;
    assert forall i :: 0 <= i < |text| ==> PANIC_TEXT[i] == Ascii(text)[i];
  }

  const ERR_BUF_CAP := 1024

  /** process_trampoline, after the handler: the return code and the out-parameters. */
  method ProcessTrampoline(h: Handling, traitsOut: IntCell?, errBuf: array?<byte>, errCap: int, errLenOut: IntCell?)
    returns (rc: int)
    requires errBuf != null ==> errCap <= errBuf.Length
    requires traitsOut == null || traitsOut != errLenOut
    modifies traitsOut, errBuf, errLenOut
    ensures rc == match h case Accepted(_) => 0 case NoHandlers => -1 case _ => 1
    ensures traitsOut != null ==>
              traitsOut.value == if h.Accepted? then h.traits else old(traitsOut.value)
    ensures errLenOut != null && (h.Accepted? || h.NoHandlers?) ==> errLenOut.value == 0
    ensures (h.Rejected? || h.Panicked?) && errBuf != null && errLenOut != null && errCap > 0 ==>
              var text := if h.Rejected? then h.text else PANIC_TEXT;
              0 <= errLenOut.value <= errBuf.Length && BacksOffTo(text, errCap, errLenOut.value)
              && errBuf[..errLenOut.value] == text[..errLenOut.value]
  {
    if errLenOut != null { errLenOut.value := 0; }
    match h
    case NoHandlers => rc := -1;
    case Accepted(traits) =>
      if traitsOut != null { traitsOut.value := traits; }
      rc := 0;
    case Rejected(text) =>
      WriteCErr(errBuf, errCap, errLenOut, text);
      rc := 1;
    case Panicked =>
      WriteCErr(errBuf, errCap, errLenOut, PANIC_TEXT);
      rc := 1;
  }

  /** The error the bridge hands the engine, which makes it the dead-letter reason. */
  datatype Reason = NotRegistered | Text(bytes: Bytes) | ErrorCode(rc: int)

  /** What an outcome means to the engine: nil exactly for an accepted message, and the
      longest valid prefix of the host's own words where there are any. */
  ghost predicate MeansToEngine(registered: bool, h: Handling, r: Option<Reason>) {
    if !registered then r == Some(NotRegistered)
    else
      match h
      case Accepted(_) => r == None
      case NoHandlers => r == Some(ErrorCode(-1))
      case Rejected(text) =>
        if text == [] then r == Some(ErrorCode(1))
        else
          r.Some? && r.value.Text? && r.value.bytes != [] && Valid(r.value.bytes)
          && r.value.bytes <= text && IsLongestValidPrefix(text, 1024, |r.value.bytes|)
      case Panicked => r == Some(Text(Ascii("panic in process callback")))
  }

  lemma PanicTextFits(n: nat)
    requires BacksOffTo(PANIC_TEXT, ERR_BUF_CAP, n)
    ensures n == |PANIC_TEXT| && PANIC_TEXT[..n] == PANIC_TEXT
  {
    BackOffIsUnique(PANIC_TEXT, ERR_BUF_CAP, n, |PANIC_TEXT|);
  }

  lemma TextReachesEngine(text: Bytes, n: nat)
    requires Valid(text) && BacksOffTo(text, ERR_BUF_CAP, n)
    ensures text == [] ==> n == 0
    ensures text != [] ==> n > 0 && Valid(text[..n]) && IsLongestValidPrefix(text, ERR_BUF_CAP, n)
  {
    BackOffFindsLongestPrefix(text, ERR_BUF_CAP, n);
    if text != [] { LongestPrefixIsNonEmpty(text, ERR_BUF_CAP, n); }
  }

  /** makeProcessMessage, with a callback registered or not: the error for the engine, and
      the custom traits added to the message. */
  method ProcessMessage(registered: bool, h: Handling) returns (r: Option<Reason>, added: Option<int>)
    requires h.Rejected? ==> Valid(h.text)
    ensures MeansToEngine(registered, h, r)
    ensures added == if registered && h.Accepted? && h.traits != 0 then Some(h.traits) else None
  {
    added := None;
    if !registered { return Some(NotRegistered), None; }
    var errBuf := new byte[ERR_BUF_CAP](_ => 0);
    var errLen := new IntCell(0);
    var traitsOut := new IntCell(0);
    var rc := ProcessTrampoline(h, traitsOut, errBuf, ERR_BUF_CAP, errLen);
    if traitsOut.value != 0 { added := Some(traitsOut.value); }
    if h.Rejected? { TextReachesEngine(h.text, errLen.value); }
    if h.Panicked? {
      PanicTextFits(errLen.value);
      PanicTextIsAscii();
    }
    if rc != 0 {
      if errLen.value > 0 {
        r := Some(Text(errBuf[..errLen.value]));
      } else {
        r := Some(ErrorCode(rc));
      }
    } else {
      r := None;
    }
  }
}
