/**
  Record headers crossing the boundary: marshalHeaders packs the header array and every key
  and value into one block through a moving cursor, and the Rust trampolines read it back.

  A pointer is an offset into the block, whose first part is the header array. Lengths cross
  as 32-bit C ints.
 */
module Arena {
  import opened Utf8

  /** A header value: Go's nil slice is a null value, apart from an empty one. */
  datatype Value = Null | Present(bytes: Bytes)

  datatype Header = Header(key: Bytes, value: Value)

  datatype Ptr = NullPtr | At(offset: nat)

  /** llingr_header. */
  datatype HeaderRaw = HeaderRaw(key: Ptr, keyLen: int, value: Ptr, valueLen: int)

  /** The size of llingr_header on a 64-bit target. */
  const STRUCT_BYTES := 32

  const C_INT_LIMIT := 0x8000_0000

  /** The conversion C.int(n): the low 32 bits, two's complement. */
  function CInt(n: nat): (r: int)
    ensures r <= n && (r == n <==> n < C_INT_LIMIT)
  {
    var low := n % 0x1_0000_0000;
    if low < C_INT_LIMIT then low else low - 0x1_0000_0000
  }

  function ValueBytes(v: Value): Bytes {
    if v.Null? then [] else v.bytes
  }

  function HeaderBytes(h: Header): Bytes {
    h.key + ValueBytes(h.value)
  }

  /** The packed bytes, in order. */
  function Payload(hs: seq<Header>): Bytes {
    if hs == [] then [] else Payload(hs[..|hs| - 1]) + HeaderBytes(hs[|hs| - 1])
  }

  function PtrTo(start: nat, size: nat): Ptr {
    if size == 0 then NullPtr else At(start)
  }

  /** The entry of a header whose bytes start at an offset of the block. */
  function Entry(h: Header, start: nat): HeaderRaw {
    var v := ValueBytes(h.value);
    HeaderRaw(PtrTo(start, |h.key|), CInt(|h.key|),
              PtrTo(start + |h.key|, |v|), if h.value.Null? then -1 else CInt(|v|))
  }

  function Base(hs: seq<Header>): nat {
    |hs| * STRUCT_BYTES
  }

  /** The place of header i's bytes among the packed ones. */
  function Offset(hs: seq<Header>, i: nat): nat
    requires i <= |hs|
  {
    |Payload(hs[..i])|
  }

  /** Entry i of the header array is the one for header i, at its place. */
  predicate EntryIsPlaced(hs: seq<Header>, structs: seq<HeaderRaw>, i: nat)
    requires i < |hs| && i < |structs|
  {
    structs[i] == Entry(hs[i], Base(hs) + Offset(hs, i))
  }

  // -- Packing ---------------------------------------------------------------------

  /** The append closure: copies data at the cursor and advances it. */
  method Put(bytes: array<byte>, base: nat, cursor: nat, data: Bytes)
    returns (ptr: Ptr, len: int, next: nat)
    requires cursor + |data| <= bytes.Length
    modifies bytes
    ensures ptr == PtrTo(base + cursor, |data|) && len == CInt(|data|) && next == cursor + |data|
    ensures bytes[..next] == old(bytes[..cursor]) + data
  {
    if |data| == 0 {
      return NullPtr, 0, cursor;
    }
    forall i | 0 <= i < |data| { bytes[cursor + i] := data[i]; }
    return At(base + cursor), CInt(|data|), cursor + |data|;
  }

  lemma {:induction false} PayloadPrefix(hs: seq<Header>, i: nat)
    requires i < |hs|
    ensures Payload(hs[..i + 1]) == Payload(hs[..i]) + HeaderBytes(hs[i])
    ensures Payload(hs[..i + 1]) <= Payload(hs)
    decreases |hs|
  {
    assert hs[..i + 1][..i] == hs[..i];
    var front := hs[..|hs| - 1];
    if i < |hs| - 1 {
      PayloadPrefix(front, i);
      assert front[..i + 1] == hs[..i + 1];
    } else {
      assert hs[..i + 1] == hs;
    }
  }

  /** The bytes the headers need behind the array. */
  method TotalBytes(headers: seq<Header>) returns (total: nat)
    ensures total == |Payload(headers)|
  {
    total := 0;
    for i := 0 to |headers|
      invariant total == |Payload(headers[..i])|
    {
      PayloadPrefix(headers, i);
      total := total + |headers[i].key|;
      if !headers[i].value.Null? {
        total := total + |headers[i].value.bytes|;
      }
    }
    assert headers[..|headers|] == headers;
  }

  /** One turn of the packing loop. */
  method PackHeader(bytes: array<byte>, base: nat, cursor: nat, h: Header) returns (raw: HeaderRaw, next: nat)
    requires cursor + |HeaderBytes(h)| <= bytes.Length
    modifies bytes
    ensures raw == Entry(h, base + cursor) && next == cursor + |HeaderBytes(h)|
    ensures bytes[..next] == old(bytes[..cursor]) + HeaderBytes(h)
  {
    var keyPtr, keyLen, afterKey := Put(bytes, base, cursor, h.key);
    if h.value.Null? {
      raw := HeaderRaw(keyPtr, keyLen, NullPtr, -1);
      next := afterKey;
    } else {
      var valuePtr, valueLen, afterValue := Put(bytes, base, afterKey, h.value.bytes);
      raw := HeaderRaw(keyPtr, keyLen, valuePtr, valueLen);
      next := afterValue;
    }
  }

  ghost predicate PlacedUpTo(hs: seq<Header>, structs: seq<HeaderRaw>, n: nat) {
    |structs| == |hs| && n <= |hs| && forall i :: 0 <= i < n ==> EntryIsPlaced(hs, structs, i)
  }

  lemma PlaceOneMore(hs: seq<Header>, structs: seq<HeaderRaw>, n: nat, raw: HeaderRaw)
    requires PlacedUpTo(hs, structs, n) && n < |hs| && raw == Entry(hs[n], Base(hs) + Offset(hs, n))
    ensures PlacedUpTo(hs, structs[n := raw], n + 1)
  {
    var updated := structs[n := raw];
    forall i | 0 <= i < n + 1 ensures EntryIsPlaced(hs, updated, i) {
      if i < n { assert EntryIsPlaced(hs, structs, i); }
    }
  }

  /** What MarshalHeaders hands over for a non-empty list. */
  ghost predicate Packed(hs: seq<Header>, structs: seq<HeaderRaw>, mem: Bytes) {
    PlacedUpTo(hs, structs, |hs|) && mem == Payload(hs)
  }

  /** marshalHeaders. The two arrays are the two parts of the one block; the cursor ends at
      the end of the second. */
  method MarshalHeaders(headers: seq<Header>)
    returns (structs: array?<HeaderRaw>, bytes: array?<byte>, count: int, cursor: nat)
    ensures headers == [] ==> structs == null && bytes == null && count == 0
    ensures headers != [] ==>
              structs != null && bytes != null && fresh(structs) && fresh(bytes)
              && count == CInt(|headers|) && cursor == bytes.Length
              && Packed(headers, structs[..], bytes[..])
  {
    var n := |headers|;
    if n == 0 {
      return null, null, 0, 0;
    }
    var total := TotalBytes(headers);
    structs := new HeaderRaw[n](_ => HeaderRaw(NullPtr, 0, NullPtr, 0));
    bytes := new byte[total](_ => 0);
    cursor := 0;
    for i := 0 to n
      invariant fresh(structs) && fresh(bytes)
      invariant cursor == Offset(headers, i) <= bytes.Length == total
      invariant bytes[..cursor] == Payload(headers[..i])
      invariant PlacedUpTo(headers, structs[..], i)
    {
      PayloadPrefix(headers, i);
      var raw, next := PackHeader(bytes, Base(headers), cursor, headers[i]);
      PlaceOneMore(headers, structs[..], i, raw);
      structs[i] := raw;
      cursor := next;
    }
    assert headers[..n] == headers;
    count := CInt(n);
  }

  // -- Where everything is -------------------------------------------------------------

  lemma {:induction false} PayloadGrows(hs: seq<Header>, i: nat, j: nat)
    requires i < j <= |hs|
    ensures |Payload(hs[..i + 1])| <= |Payload(hs[..j])|
    decreases j - i
  {
    if i + 1 < j {
      PayloadGrows(hs, i, j - 1);
      PayloadPrefix(hs, j - 1);
    }
  }

  /** A header's bytes behind a prefix of the block are its key and its value. */
  lemma HeaderSlices(before: Bytes, h: Header, mem: Bytes)
    requires before + HeaderBytes(h) <= mem
    ensures |before| + |HeaderBytes(h)| <= |mem|
    ensures mem[|before|..|before| + |h.key|] == h.key
    ensures mem[|before| + |h.key|..|before| + |HeaderBytes(h)|] == ValueBytes(h.value)
  {
    assert mem[..|before| + |HeaderBytes(h)|] == before + HeaderBytes(h);
  }

  lemma PlacesAreApart(hs: seq<Header>, i: nat, j: nat)
    requires i < j < |hs|
    ensures Offset(hs, i) + |HeaderBytes(hs[i])| <= Offset(hs, j)
    ensures Offset(hs, j) + |HeaderBytes(hs[j])| <= |Payload(hs)|
  {
    PayloadPrefix(hs, i);
    PayloadPrefix(hs, j);
    PayloadGrows(hs, i, j);
  }

  /** The bytes an entry points at: at most two regions of the block, each a start and a
      length. */
  function Regions(h: Header, raw: HeaderRaw): seq<(nat, nat)> {
    (if raw.key.At? then [(raw.key.offset, |h.key|)] else [])
    + (if raw.value.At? then [(raw.value.offset, |ValueBytes(h.value)|)] else [])
  }

  predicate Disjoint(a: (nat, nat), b: (nat, nat)) {
    a.0 + a.1 <= b.0 || b.0 + b.1 <= a.0
  }

  /** The regions of an entry whose bytes start at a place. */
  lemma RegionsOfEntry(h: Header, start: nat, raw: HeaderRaw)
    requires raw == Entry(h, start)
    ensures var rs := Regions(h, raw);
            && (forall r :: r in rs ==> start <= r.0 && r.0 + r.1 <= start + |HeaderBytes(h)|)
            && (|rs| == 2 ==> Disjoint(rs[0], rs[1]))
  {
  }

  /** The regions of an entry lie behind the header array and inside the block, and do not
      overlap. */
  lemma RegionsAreInBlock(hs: seq<Header>, structs: seq<HeaderRaw>, mem: Bytes, i: nat)
    requires Packed(hs, structs, mem) && i < |hs|
    ensures var rs := Regions(hs[i], structs[i]);
            && (forall r :: r in rs ==> Base(hs) <= r.0 && r.0 + r.1 <= Base(hs) + |mem|)
            && (|rs| == 2 ==> Disjoint(rs[0], rs[1]))
  {
    assert EntryIsPlaced(hs, structs, i);
    PayloadPrefix(hs, i);
    RegionsOfEntry(hs[i], Base(hs) + Offset(hs, i), structs[i]);
  }

  /** The regions of two entries do not overlap. */
  lemma RegionsAreDisjoint(hs: seq<Header>, structs: seq<HeaderRaw>, mem: Bytes, i: nat, j: nat)
    requires Packed(hs, structs, mem) && i < j < |hs|
    ensures forall r, q :: r in Regions(hs[i], structs[i]) && q in Regions(hs[j], structs[j]) ==> Disjoint(r, q)
  {
    assert EntryIsPlaced(hs, structs, i) && EntryIsPlaced(hs, structs, j);
    PlacesAreApart(hs, i, j);
    RegionsOfEntry(hs[i], Base(hs) + Offset(hs, i), structs[i]);
    RegionsOfEntry(hs[j], Base(hs) + Offset(hs, j), structs[j]);
  }

  // -- Reading back ------------------------------------------------------------------------

  /** Whether a read stays inside the block. */
  predicate InBlock(mem: Bytes, base: nat, p: Ptr, len: int) {
    p.NullPtr? || len <= 0 || (base <= p.offset && p.offset - base + len <= |mem|)
  }

  /** borrow_bytes, over the second part of the block. */
  function BorrowBytes(mem: Bytes, base: nat, p: Ptr, len: int): Bytes
    requires InBlock(mem, base, p, len)
  {
    if p.NullPtr? || len <= 0 then [] else mem[p.offset - base..p.offset - base + len]
  }

  predicate EntryInBlock(mem: Bytes, base: nat, raw: HeaderRaw) {
    InBlock(mem, base, raw.key, raw.keyLen) && InBlock(mem, base, raw.value, raw.valueLen)
  }

  function BorrowHeader(mem: Bytes, base: nat, raw: HeaderRaw): Header
    requires EntryInBlock(mem, base, raw)
  {
    var key := BorrowBytes(mem, base, raw.key, raw.keyLen);
    Header(if Valid(key) then key else [],
           if raw.valueLen < 0 then Null else Present(BorrowBytes(mem, base, raw.value, raw.valueLen)))
  }

  /** borrow_headers, for a header array that is there and holds at least count entries. */
  function BorrowHeaders(structs: seq<HeaderRaw>, count: int, mem: Bytes, base: nat): seq<Header>
    requires count <= |structs|
    requires forall i :: 0 <= i < |structs| ==> EntryInBlock(mem, base, structs[i])
  {
    if count <= 0 then []
    else seq(count, i requires 0 <= i < count => BorrowHeader(mem, base, structs[i]))
  }

  predicate HeaderFits(h: Header) {
    Valid(h.key) && |h.key| < C_INT_LIMIT && |ValueBytes(h.value)| < C_INT_LIMIT
  }

  /** A key or value read from where it was put is itself exactly when its length fits. */
  lemma ReadRegion(mem: Bytes, base: nat, at: nat, data: Bytes)
    requires at + |data| <= |mem| && mem[at..at + |data|] == data
    ensures InBlock(mem, base, PtrTo(base + at, |data|), CInt(|data|))
    ensures var read := BorrowBytes(mem, base, PtrTo(base + at, |data|), CInt(|data|));
            if |data| < C_INT_LIMIT then read == data else |read| < |data|
  {
  }

  /** An undecodable key reads as the empty one, which it is not. */
  lemma KeyRoundTrip(read: Bytes, key: Bytes)
    requires if |key| < C_INT_LIMIT then read == key else |read| < |key|
    ensures (if Valid(read) then read else []) == key <==> Valid(key) && |key| < C_INT_LIMIT
  {
  }

  lemma KeyComesBack(mem: Bytes, base: nat, h: Header, at: nat, raw: HeaderRaw)
    requires at + |h.key| <= |mem| && mem[at..at + |h.key|] == h.key
    requires raw == Entry(h, base + at)
    ensures InBlock(mem, base, raw.key, raw.keyLen)
    ensures var read := BorrowBytes(mem, base, raw.key, raw.keyLen);
            (if Valid(read) then read else []) == h.key <==> Valid(h.key) && |h.key| < C_INT_LIMIT
  {
    ReadRegion(mem, base, at, h.key);
    KeyRoundTrip(BorrowBytes(mem, base, raw.key, raw.keyLen), h.key);
  }

  lemma ValueComesBack(mem: Bytes, base: nat, h: Header, at: nat, raw: HeaderRaw)
    requires at + |HeaderBytes(h)| <= |mem|
    requires mem[at + |h.key|..at + |HeaderBytes(h)|] == ValueBytes(h.value)
    requires raw == Entry(h, base + at)
    ensures InBlock(mem, base, raw.value, raw.valueLen)
    ensures (if raw.valueLen < 0 then Null else Present(BorrowBytes(mem, base, raw.value, raw.valueLen))) == h.value
            <==> |ValueBytes(h.value)| < C_INT_LIMIT
  {
    ReadRegion(mem, base, at + |h.key|, ValueBytes(h.value));
  }

  /** One header is read inside the block, and comes back unchanged exactly when its key is
      UTF-8 and both lengths fit. */
  lemma EntryRoundTrip(mem: Bytes, base: nat, h: Header, at: nat, raw: HeaderRaw)
    requires at + |HeaderBytes(h)| <= |mem| && mem[at..at + |h.key|] == h.key
    requires mem[at + |h.key|..at + |HeaderBytes(h)|] == ValueBytes(h.value)
    requires raw == Entry(h, base + at)
    ensures EntryInBlock(mem, base, raw)
    ensures BorrowHeader(mem, base, raw) == h <==> HeaderFits(h)
  {
    KeyComesBack(mem, base, h, at, raw);
    ValueComesBack(mem, base, h, at, raw);
  }

  lemma EntryBehindPrefix(before: Bytes, h: Header, mem: Bytes, base: nat, raw: HeaderRaw)
    requires before + HeaderBytes(h) <= mem && raw == Entry(h, base + |before|)
    ensures EntryInBlock(mem, base, raw)
    ensures BorrowHeader(mem, base, raw) == h <==> HeaderFits(h)
  {
    HeaderSlices(before, h, mem);
    EntryRoundTrip(mem, base, h, |before|, raw);
  }

  lemma EntryReadsBack(hs: seq<Header>, structs: seq<HeaderRaw>, mem: Bytes, i: nat)
    requires Packed(hs, structs, mem) && i < |hs|
    ensures |structs| == |hs| && EntryInBlock(mem, Base(hs), structs[i])
    ensures BorrowHeader(mem, Base(hs), structs[i]) == hs[i] <==> HeaderFits(hs[i])
  {
    assert EntryIsPlaced(hs, structs, i);
    PayloadPrefix(hs, i);
    EntryBehindPrefix(Payload(hs[..i]), hs[i], mem, Base(hs), structs[i]);
  }

  /** The reader never leaves the block, whatever the lengths; and the header list the handler
      sees is the record's, in order, with duplicates, and with null, empty and non-empty
      values told apart, exactly when every key is UTF-8 and every length, and the count, fits
      a C int. */
  lemma HeadersRoundTrip(hs: seq<Header>, structs: seq<HeaderRaw>, mem: Bytes)
    requires Packed(hs, structs, mem)
    ensures |structs| == |hs|
    ensures forall i :: 0 <= i < |structs| ==> EntryInBlock(mem, Base(hs), structs[i])
    ensures BorrowHeaders(structs, CInt(|hs|), mem, Base(hs)) == hs <==>
            |hs| < C_INT_LIMIT && forall i :: 0 <= i < |hs| ==> HeaderFits(hs[i])
  {
    forall i | 0 <= i < |hs|
      ensures EntryInBlock(mem, Base(hs), structs[i])
      ensures BorrowHeader(mem, Base(hs), structs[i]) == hs[i] <==> HeaderFits(hs[i])
    {
      EntryReadsBack(hs, structs, mem, i);
    }
    SameListIffSameEntries(structs, hs, mem, Base(hs));
  }

  lemma SameListIffSameEntries(structs: seq<HeaderRaw>, hs: seq<Header>, mem: Bytes, base: nat)
    requires |structs| == |hs|
    requires forall i :: 0 <= i < |structs| ==> EntryInBlock(mem, base, structs[i])
    ensures BorrowHeaders(structs, CInt(|hs|), mem, base) == hs <==>
            |hs| < C_INT_LIMIT && forall i :: 0 <= i < |hs| ==> BorrowHeader(mem, base, structs[i]) == hs[i]
  {
    var read := BorrowHeaders(structs, CInt(|hs|), mem, base);
    if read == hs {
      assert |read| == |hs|;
      forall i | 0 <= i < |hs| ensures BorrowHeader(mem, base, structs[i]) == hs[i] {
        assert read[i] == BorrowHeader(mem, base, structs[i]);
      }
    }
  }
}
