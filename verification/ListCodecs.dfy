/** Lists the host joins into one option value and the bridge splits again. */
module ListCodecs {
  import opened Common
  import opened Text
  import opened Pairs

  // -- OAuth extensions -------------------------------------------------------------------

  /** The host's side: "k1=v1,k2=v2". */
  function JoinExtensions(pairs: seq<Pair>): string {
    Join(PairTexts(pairs), ',')
  }

  function PairTexts(pairs: seq<Pair>): (r: seq<string>)
    ensures |r| == |pairs| && forall i :: 0 <= i < |r| ==> r[i] == pairs[i].0 + ['='] + pairs[i].1
  {
    seq(|pairs|, i requires 0 <= i < |pairs| => pairs[i].0 + ['='] + pairs[i].1)
  }

  /** strings.Cut: the text before and after the first separator. */
  function Cut(s: string, sep: char): Option<(string, string)> {
    if s == [] then None
    else if s[0] == sep then Some(([], s[1..]))
    else match Cut(s[1..], sep)
      case None => None
      case Some(halves) => Some(([s[0]] + halves.0, halves.1))
  }

  /** The key and value of one part; a part without a key is an error. */
  function ReadPart(part: string): Option<Pair> {
    match Cut(part, '=')
    case None => None
    case Some(halves) => if Trim(halves.0) == "" then None else Some((Trim(halves.0), Trim(halves.1)))
  }

  /** The pairs of the parts in order; blank parts are skipped. */
  function ReadParts(parts: seq<string>): Option<seq<Pair>> {
    if parts == [] then Some([])
    else
      match ReadParts(parts[..|parts| - 1])
      case None => None
      case Some(before) =>
        var part := Trim(parts[|parts| - 1]);
        if part == "" then Some(before)
        else match ReadPart(part)
          case None => None
          case Some(pair) => Some(before + [pair])
  }

  /** The extensions of a raw option value; no extensions is the empty map. */
  function ParseExtensions(raw: string): Option<map<string, string>> {
    if Trim(raw) == "" then Some(map[])
    else match ReadParts(Split(Trim(raw), ','))
      case None => None
      case Some(pairs) => Some(LastWins(pairs))
  }

  lemma {:induction false} FailureStays(parts: seq<string>, n: nat)
    requires n <= |parts| && ReadParts(parts[..n]) == None
    ensures ReadParts(parts) == None
    decreases |parts|
  {
    if n < |parts| {
      assert parts[..|parts| - 1][..n] == parts[..n];
      FailureStays(parts[..|parts| - 1], n);
    } else {
      assert parts[..n] == parts;
    }
  }

  /** parseOAuthExtensions: a map filled part by part. */
  method ParseOAuthExtensions(value: string) returns (r: Option<map<string, string>>)
    ensures r == ParseExtensions(value)
  {
    var raw := Trim(value);
    if raw == "" { return Some(map[]); }
    var out: map<string, string> := map[];
    var parts := Split(raw, ',');
    ghost var pairs: seq<Pair> := [];
    for i := 0 to |parts|
      invariant ReadParts(parts[..i]) == Some(pairs) && out == LastWins(pairs)
    {
      assert parts[..i + 1][..i] == parts[..i];
      var part := Trim(parts[i]);
      if part != "" {
        var cut := Cut(part, '=');
        if cut.None? || Trim(cut.value.0) == "" {
          FailureStays(parts, i + 1);
          return None;
        }
        var pair := (Trim(cut.value.0), Trim(cut.value.1));
        assert (pairs + [pair])[..|pairs|] == pairs;
        out := out[pair.0 := pair.1];
        pairs := pairs + [pair];
      }
    }
    assert parts[..|parts|] == parts;
    r := Some(out);
  }

  /** A pair that its joined form can carry. */
  predicate Carried(pair: Pair) {
    && pair.0 != "" && IsTrimmed(pair.0) && '=' !in pair.0 && ',' !in pair.0
    && IsTrimmed(pair.1) && ',' !in pair.1
  }

  lemma {:induction false} CutAtFirst(key: string, value: string)
    requires '=' !in key
    ensures Cut(key + ['='] + value, '=') == Some((key, value))
  {
    var s := key + ['='] + value;
    if key == [] {
      assert s[1..] == value;
    } else {
      assert s[1..] == key[1..] + ['='] + value;
      CutAtFirst(key[1..], value);
      assert key == [key[0]] + key[1..];
    }
  }

  lemma PartIsReadBack(pair: Pair)
    requires Carried(pair)
    ensures var part := pair.0 + ['='] + pair.1;
      IsTrimmed(part) && Trim(part) == part && part != "" && ',' !in part && ReadPart(part) == Some(pair)
  {
    var part := pair.0 + ['='] + pair.1;
    assert part[|part| - 1] == if pair.1 == [] then '=' else pair.1[|pair.1| - 1];
    TrimKeepsTrimmed(part);
    TrimKeepsTrimmed(pair.0);
    TrimKeepsTrimmed(pair.1);
    CutAtFirst(pair.0, pair.1);
  }

  lemma {:induction false} PartsAreReadBack(pairs: seq<Pair>, parts: seq<string>)
    requires |parts| == |pairs|
    requires forall i :: 0 <= i < |pairs| ==> Carried(pairs[i]) && parts[i] == pairs[i].0 + ['='] + pairs[i].1
    ensures ReadParts(parts) == Some(pairs)
  {
    if pairs != [] {
      var last := |pairs| - 1;
      PartsAreReadBack(pairs[..last], parts[..last]);
      PartIsReadBack(pairs[last]);
      assert pairs == pairs[..last] + [pairs[last]];
    }
  }

  lemma {:induction false} JoinIsTrimmed(parts: seq<string>, sep: char)
    requires parts != [] && forall i :: 0 <= i < |parts| ==> parts[i] != "" && IsTrimmed(parts[i])
    ensures Join(parts, sep) != "" && IsTrimmed(Join(parts, sep))
  {
    if |parts| > 1 {
      JoinIsTrimmed(parts[1..], sep);
      var j, rest := Join(parts, sep), Join(parts[1..], sep);
      assert j[0] == parts[0][0] && j[|j| - 1] == rest[|rest| - 1];
    }
  }

  /** Joining then parsing gives the map in which the last value of each key wins. */
  lemma ExtensionsRoundTrip(pairs: seq<Pair>)
    requires forall i :: 0 <= i < |pairs| ==> Carried(pairs[i])
    ensures ParseExtensions(JoinExtensions(pairs)) == Some(LastWins(pairs))
  {
    if pairs != [] {
      var parts := PairTexts(pairs);
      forall i | 0 <= i < |parts| ensures parts[i] != "" && IsTrimmed(parts[i]) && ',' !in parts[i] {
        PartIsReadBack(pairs[i]);
      }
      JoinIsTrimmed(parts, ',');
      TrimKeepsTrimmed(Join(parts, ','));
      SplitUndoesJoin(parts, ',');
      PartsAreReadBack(pairs, parts);
    }
  }

  lemma {:induction false} TrimTrims(s: string)
    ensures IsTrimmed(Trim(s))
    ensures forall c :: c in Trim(s) ==> c in s
  {
    TrimStartTrims(s);
    TrimEndTrims(TrimStart(s));
  }

  lemma {:induction false} TrimStartTrims(s: string)
    ensures TrimStart(s) == [] || !IsSpace(TrimStart(s)[0])
    ensures forall c :: c in TrimStart(s) ==> c in s
  {
    if s != [] && IsSpace(s[0]) { TrimStartTrims(s[1..]); }
  }

  lemma {:induction false} TrimEndTrims(s: string)
    ensures TrimEnd(s) == [] || (!IsSpace(TrimEnd(s)[|TrimEnd(s)| - 1]) && TrimEnd(s)[0] == s[0])
    ensures forall c :: c in TrimEnd(s) ==> c in s
  {
    if s != [] && IsSpace(s[|s| - 1]) { TrimEndTrims(s[..|s| - 1]); }
  }

  lemma {:induction false} CutLacksSeparator(s: string, sep: char)
    ensures var cut := Cut(s, sep);
      cut.Some? ==>
        && sep !in cut.value.0
        && (forall c :: c in cut.value.0 ==> c in s)
        && (forall c :: c in cut.value.1 ==> c in s)
  {
    if s != [] && s[0] != sep { CutLacksSeparator(s[1..], sep); }
  }

  /** Whatever is read from a comma-free part can be carried. */
  lemma ReadPartIsCarried(part: string)
    requires ',' !in part && ReadPart(part).Some?
    ensures Carried(ReadPart(part).value)
  {
    CutLacksSeparator(part, '=');
    var halves := Cut(part, '=').value;
    TrimTrims(halves.0);
    TrimTrims(halves.1);
  }

  lemma {:induction false} ReadPartsAreCarried(parts: seq<string>)
    requires forall k :: 0 <= k < |parts| ==> ',' !in parts[k]
    requires ReadParts(parts).Some?
    ensures forall i :: 0 <= i < |ReadParts(parts).value| ==> Carried(ReadParts(parts).value[i])
  {
    if parts != [] {
      ReadPartsAreCarried(parts[..|parts| - 1]);
      var part := Trim(parts[|parts| - 1]);
      TrimTrims(parts[|parts| - 1]);
      if part != "" { ReadPartIsCarried(part); }
    }
  }

  /** A single extension survives exactly when its joined form can carry it. */
  lemma OneExtensionSurvivesExactly(pair: Pair)
    ensures ParseExtensions(JoinExtensions([pair])) == Some(map[pair.0 := pair.1]) <==> Carried(pair)
  {
    assert [pair][..0] == [];
    assert LastWins([pair]) == map[pair.0 := pair.1];
    if Carried(pair) {
      ExtensionsRoundTrip([pair]);
    } else {
      var raw := Trim(JoinExtensions([pair]));
      var r := ParseExtensions(JoinExtensions([pair]));
      assert pair.0 in map[pair.0 := pair.1];
      if raw != "" && ReadParts(Split(raw, ',')).Some? && r == Some(map[pair.0 := pair.1]) {
        var parts := Split(raw, ',');
        var pairs := ReadParts(parts).value;
        forall k | 0 <= k < |parts| ensures ',' !in parts[k] { SplitPartsLack(raw, ',', k); }
        ReadPartsAreCarried(parts);
        LastWinsTakesFrom(pairs, pair.0);
      }
    }
  }

  // -- What any list of extensions means ------------------------------------------------------

  lemma {:induction false} PartsOfConcat(a: seq<string>, b: seq<string>)
    ensures ReadParts(a + b) ==
      match (ReadParts(a), ReadParts(b))
      case (Some(x), Some(y)) => Some(x + y)
      case _ => None
  {
    if b == [] {
      assert a + b == a;
      assert ReadParts(a).Some? ==> ReadParts(a).value + [] == ReadParts(a).value;
    } else {
      var front, last := b[..|b| - 1], b[|b| - 1];
      assert (a + b)[..|a + b| - 1] == a + front && (a + b)[|a + b| - 1] == last;
      PartsOfConcat(a, front);
      assert forall x: seq<Pair>, y: seq<Pair>, pair: Pair :: x + (y + [pair]) == (x + y) + [pair];
    }
  }

  /** A blank part is skipped. */
  lemma BlankPartIsSkipped(part: string)
    requires Trim(part) == ""
    ensures ReadParts([part]) == Some([])
  {
    assert [part][..0] == [];
  }

  /** A part with a key before its first equals sign is that pair, blanks aside; a part without
      one, or with a blank key, is refused. */
  lemma PartIsRead(part: string, key: string, value: string)
    requires Trim(part) != ""
    ensures '=' !in Trim(part) ==> ReadParts([part]) == None
    ensures Trim(part) == key + ['='] + value && '=' !in key ==>
      ReadParts([part]) == if Trim(key) == "" then None else Some([(Trim(key), Trim(value))])
  {
    assert [part][..0] == [];
    if '=' !in Trim(part) { CutNeedsTheSeparator(Trim(part), '='); }
    if Trim(part) == key + ['='] + value && '=' !in key {
      CutAtFirst(key, value);
      assert [] + [(Trim(key), Trim(value))] == [(Trim(key), Trim(value))];
    }
  }

  lemma {:induction false} CutNeedsTheSeparator(s: string, sep: char)
    requires sep !in s
    ensures Cut(s, sep) == None
  {
    if s != [] { CutNeedsTheSeparator(s[1..], sep); }
  }

  // -- Assignment strategies -----------------------------------------------------------------

  datatype Strategy = CooperativeSticky | Sticky | RoundRobin | Range

  datatype StrategyError = EmptyEntry | Unsupported(name: string)

  function StrategyName(s: Strategy): string {
    match s
    case CooperativeSticky => "cooperative-sticky"
    case Sticky => "sticky"
    case RoundRobin => "roundrobin"
    case Range => "range"
  }

  function StrategyNames(list: seq<Strategy>): (r: seq<string>)
    ensures |r| == |list| && forall i :: 0 <= i < |r| ==> r[i] == StrategyName(list[i])
  {
    seq(|list|, i requires 0 <= i < |list| => StrategyName(list[i]))
  }

  /** The host's side: the names in preference order. */
  function JoinStrategies(list: seq<Strategy>): string {
    Join(StrategyNames(list), ',')
  }

  function ReadStrategy(raw: string): Result<Strategy, StrategyError> {
    var name := Lower(Trim(raw));
    if name == "cooperative-sticky" then Ok(CooperativeSticky)
    else if name == "sticky" then Ok(Sticky)
    else if name == "roundrobin" then Ok(RoundRobin)
    else if name == "range" then Ok(Range)
    else if name == "" then Err(EmptyEntry)
    else Err(Unsupported(name))
  }

  /** The first entry that cannot be read decides. */
  function ReadStrategies(parts: seq<string>): Result<seq<Strategy>, StrategyError> {
    if parts == [] then Ok([])
    else
      match ReadStrategy(parts[0])
      case Err(e) => Err(e)
      case Ok(first) =>
        match ReadStrategies(parts[1..])
        case Err(e) => Err(e)
        case Ok(more) => Ok([first] + more)
  }

  /** One entry, in any case and with blanks around it. */
  predicate Spells(raw: string, s: Strategy) {
    Lower(Trim(raw)) ==
      match s
      case CooperativeSticky => "cooperative-sticky"
      case Sticky => "sticky"
      case RoundRobin => "roundrobin"
      case Range => "range"
  }

  lemma StrategyIsSpelled(raw: string, s: Strategy)
    ensures ReadStrategy(raw) == Ok(s) <==> Spells(raw, s)
  {
  }

  /** A list of entries is read entry by entry, in order, when every one spells a strategy. */
  lemma {:induction false} StrategiesAreSpelled(parts: seq<string>, list: seq<Strategy>)
    ensures ReadStrategies(parts) == Ok(list) <==>
      |list| == |parts| && forall i :: 0 <= i < |parts| ==> Spells(parts[i], list[i])
  {
    if parts != [] {
      if list != [] {
        StrategyIsSpelled(parts[0], list[0]);
        StrategiesAreSpelled(parts[1..], list[1..]);
        assert list == [list[0]] + list[1..];
        assert (forall i :: 0 <= i < |parts| ==> i < |list| && Spells(parts[i], list[i])) ==>
          forall i :: 0 <= i < |parts[1..]| ==> i + 1 < |list| && Spells(parts[1..][i], list[1..][i]);
      }
      if ReadStrategies(parts).Ok? {
        var first := ReadStrategy(parts[0]).value;
        StrategyIsSpelled(parts[0], first);
      }
    }
  }

  function ParseStrategies(value: string): Result<seq<Strategy>, StrategyError> {
    ReadStrategies(Split(value, ','))
  }

  /** The partition.assignment.strategy translator: balancers appended name by name. */
  method TranslateStrategies(value: string) returns (r: Result<seq<Strategy>, StrategyError>)
    ensures r == ParseStrategies(value)
  {
    var names := Split(value, ',');
    var balancers: seq<Strategy> := [];
    assert names[0..] == names;
    assert ParseStrategies(value).Ok? ==> [] + ParseStrategies(value).value == ParseStrategies(value).value;
    for i := 0 to |names|
      invariant ParseStrategies(value) ==
        match ReadStrategies(names[i..]) { case Err(e) => Err(e) case Ok(more) => Ok(balancers + more) }
    {
      assert names[i..][1..] == names[i + 1..];
      var one := ReadStrategy(names[i]);
      if one.Err? { return Err(one.error); }
      ghost var more := ReadStrategies(names[i + 1..]);
      assert more.Ok? ==> balancers + ([one.value] + more.value) == balancers + [one.value] + more.value;
      balancers := balancers + [one.value];
    }
    assert names[|names|..] == [] && balancers + [] == balancers;
    r := Ok(balancers);
  }

  predicate LowerLetters(s: string) {
    s != [] && forall i :: 0 <= i < |s| ==> 'a' <= s[i] <= 'z' || s[i] == '-'
  }

  lemma StickyNamesAreLower()
    ensures LowerLetters(StrategyName(CooperativeSticky)) && LowerLetters(StrategyName(Sticky))
  {
  }

  lemma OtherNamesAreLower()
    ensures LowerLetters(StrategyName(RoundRobin)) && LowerLetters(StrategyName(Range))
  {
  }

  lemma NameIsReadBack(s: Strategy)
    ensures ',' !in StrategyName(s) && ReadStrategy(StrategyName(s)) == Ok(s)
  {
    StickyNamesAreLower();
    OtherNamesAreLower();
    LowerKeepsLower(StrategyName(s));
  }

  lemma LowerKeepsLower(name: string)
    requires LowerLetters(name)
    ensures Lower(Trim(name)) == name && ',' !in name
  {
    TrimKeepsTrimmed(name);
    LowerOfLower(name);
  }

  lemma {:induction false} LowerOfLower(name: string)
    requires forall i :: 0 <= i < |name| ==> 'a' <= name[i] <= 'z' || name[i] == '-'
    ensures Lower(name) == name
  {
    if name != [] {
      LowerOfLower(name[1..]);
      assert name == [name[0]] + name[1..];
    }
  }

  lemma {:induction false} NamesAreReadBack(list: seq<Strategy>, names: seq<string>)
    requires |names| == |list| && forall i :: 0 <= i < |list| ==> names[i] == StrategyName(list[i])
    ensures ReadStrategies(names) == Ok(list)
  {
    if list != [] {
      NameIsReadBack(list[0]);
      NamesAreReadBack(list[1..], names[1..]);
      assert list == [list[0]] + list[1..];
    }
  }

  /** A list of strategies arrives unchanged and in order, unless it is empty: then the bridge
      refuses it. */
  lemma StrategiesRoundTrip(list: seq<Strategy>)
    ensures ParseStrategies(JoinStrategies(list)) == if list == [] then Err(EmptyEntry) else Ok(list)
  {
    var names := StrategyNames(list);
    if list == [] {
      EmptyStrategyIsRefused();
    } else {
      forall i | 0 <= i < |names| ensures ',' !in names[i] { NameIsReadBack(list[i]); }
      SplitUndoesJoin(names, ',');
      NamesAreReadBack(list, names);
    }
  }

  lemma EmptyStrategyIsRefused()
    ensures ParseStrategies("") == Err(EmptyEntry)
  {
    assert Lower(Trim("")) == "";
    assert ReadStrategy("") == Err(EmptyEntry);
    assert [[]][0] == "";
  }
}
