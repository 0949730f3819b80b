/** UTF-8 byte sequences, by the grammar of section 4 of RFC 3629. */
module Utf8 {

  newtype byte = x: int | 0 <= x < 256

  type Bytes = seq<byte>

  /** A byte that continues a sequence begun earlier. */
  predicate Continuation(b: byte) {
    0x80 <= b < 0xC0
  }

  /** Both languages' test for one: the upper two bits are 10, and, read as a signed byte, it is
      less than -64. */
  lemma ContinuationByEitherTest(b: byte)
    ensures Continuation(b) <==> b as int / 0x40 == 2
    ensures Continuation(b) <==> (if b < 0x80 then b as int else b as int - 0x100) < -0x40
  {
  }

  predicate Within(s: Bytes, i: nat, lo: byte, hi: byte) {
    i < |s| && lo <= s[i] <= hi
  }

  predicate Tail(s: Bytes, i: nat) {
    Within(s, i, 0x80, 0xBF)
  }

  /** The length of the well-formed character s starts with; 0 when there is none. */
  function CharLen(s: Bytes): (k: nat)
    ensures k <= |s| && k <= 4
  {
    if |s| == 0 then 0
    else if s[0] <= 0x7F then 1
    else if 0xC2 <= s[0] <= 0xDF && Tail(s, 1) then 2
    else if s[0] == 0xE0 && Within(s, 1, 0xA0, 0xBF) && Tail(s, 2) then 3
    else if 0xE1 <= s[0] <= 0xEC && Tail(s, 1) && Tail(s, 2) then 3
    else if s[0] == 0xED && Within(s, 1, 0x80, 0x9F) && Tail(s, 2) then 3
    else if 0xEE <= s[0] <= 0xEF && Tail(s, 1) && Tail(s, 2) then 3
    else if s[0] == 0xF0 && Within(s, 1, 0x90, 0xBF) && Tail(s, 2) && Tail(s, 3) then 4
    else if 0xF1 <= s[0] <= 0xF3 && Tail(s, 1) && Tail(s, 2) && Tail(s, 3) then 4
    else if s[0] == 0xF4 && Within(s, 1, 0x80, 0x8F) && Tail(s, 2) && Tail(s, 3) then 4
    else 0
  }

  predicate Valid(s: Bytes)
    decreases |s|
  {
    s == [] || (CharLen(s) > 0 && Valid(s[CharLen(s)..]))
  }

  /** A cut inside the first character leaves no character. */
  lemma CharLenOfPrefix(s: Bytes, n: nat)
    requires n <= |s| && CharLen(s) > 0
    ensures CharLen(s[..n]) == if n < CharLen(s) then 0 else CharLen(s)
    ensures forall i :: 0 < i < CharLen(s) ==> Continuation(s[i])
    ensures !Continuation(s[0])
  {
  }

  /** In valid text the places where a cut leaves valid text are exactly those that are not
      followed by a continuation byte. */
  lemma {:induction false} CutsBetweenCharacters(s: Bytes, n: nat)
    requires Valid(s) && n <= |s|
    ensures Valid(s[..n]) <==> (n == |s| || !Continuation(s[n]))
    decreases |s|
  {
    if s != [] {
      var k := CharLen(s);
      CharLenOfPrefix(s, n);
      if k <= n {
        CutsBetweenCharacters(s[k..], n - k);
        assert s[..n][k..] == s[k..][..n - k];
      }
    }
  }

  /** Every four consecutive bytes of valid text contain the start of a character. */
  lemma {:induction false} CharactersAreShort(s: Bytes, n: nat)
    requires Valid(s) && n + 4 <= |s|
    ensures exists i :: n <= i < n + 4 && !Continuation(s[i])
    decreases |s|
  {
    var k := CharLen(s);
    CharLenOfPrefix(s, 0);
    if n == 0 {
      assert !Continuation(s[0]);
    } else if n < k {
      assert s[k..] != [] && !Continuation(s[k..][0]) by { CharLenOfPrefix(s[k..], 0); }
      assert !Continuation(s[k]);
    } else {
      CharactersAreShort(s[k..], n - k);
      var i :| n - k <= i < n - k + 4 && !Continuation(s[k..][i]);
      assert !Continuation(s[i + k]);
    }
  }
}
