/** The comment scanner of abi-check and the ABI signature it feeds.

    The scanner reads bytes and pushes each kept byte as a character, so a source text here is a
    string whose characters are those bytes. */
module StripComments {
  import opened Text

  // -- The scanner -------------------------------------------------------------------

  predicate StartsBlock(s: string) {
    |s| >= 2 && s[0] == '/' && s[1] == '*'
  }

  predicate StartsLine(s: string) {
    |s| >= 2 && s[0] == '/' && s[1] == '/'
  }

  predicate StartsClose(s: string) {
    |s| >= 2 && s[0] == '*' && s[1] == '/'
  }

  /** What follows the first closer; nothing when there is none. */
  function AfterBlock(s: string): (r: string)
    ensures |r| <= |s|
  {
    if |s| < 2 then [] else if StartsClose(s) then s[2..] else AfterBlock(s[1..])
  }

  /** What follows the line, its ending newline included. */
  function AfterLine(s: string): (r: string)
    ensures |r| <= |s|
  {
    if s == [] || s[0] == '\n' then s else AfterLine(s[1..])
  }

  function Strip(s: string): string
    decreases |s|
  {
    if s == [] then []
    else if StartsBlock(s) then [' '] + Strip(AfterBlock(s[2..]))
    else if StartsLine(s) then Strip(AfterLine(s[2..]))
    else [s[0]] + Strip(s[1..])
  }

  /** The rest of b from an index that may lie past its end. */
  function From(b: string, i: nat): string {
    if i <= |b| then b[i..] else []
  }

  lemma StripAt(b: string, i: nat)
    requires i < |b|
    ensures StartsBlock(b[i..]) ==> Strip(b[i..]) == [' '] + Strip(AfterBlock(b[i + 2..]))
    ensures StartsLine(b[i..]) ==> Strip(b[i..]) == Strip(AfterLine(b[i + 2..]))
    ensures !StartsBlock(b[i..]) && !StartsLine(b[i..]) ==> Strip(b[i..]) == [b[i]] + Strip(b[i + 1..])
  {
    var s := b[i..];
    assert |s| >= 2 ==> s[2..] == b[i + 2..];
    assert s[1..] == b[i + 1..];
  }

  lemma AfterAt(b: string, i: nat)
    requires i < |b|
    ensures i + 1 < |b| && !StartsClose(b[i..]) ==> AfterBlock(b[i..]) == AfterBlock(b[i + 1..])
    ensures i + 1 < |b| && StartsClose(b[i..]) ==> AfterBlock(b[i..]) == b[i + 2..]
    ensures b[i] != '\n' ==> AfterLine(b[i..]) == AfterLine(b[i + 1..])
  {
    var s := b[i..];
    assert |s| >= 2 ==> s[2..] == b[i + 2..];
    assert s[1..] == b[i + 1..];
  }

  /** The inner loop over a block comment; the index may end past the text. */
  method SkipBlock(b: string, start: nat) returns (i: nat)
    requires start <= |b|
    ensures i > start && From(b, i) == AfterBlock(b[start..])
  {
    i := start;
    while i + 1 < |b| && !(b[i] == '*' && b[i + 1] == '/')
      invariant start <= i <= |b| && AfterBlock(b[i..]) == AfterBlock(b[start..])
    {
      AfterAt(b, i);
      i := i + 1;
    }
    if i < |b| { AfterAt(b, i); }
    i := i + 2;
  }

  /** The inner loop over a line comment. */
  method SkipLine(b: string, start: nat) returns (i: nat)
    requires start <= |b|
    ensures i >= start && From(b, i) == AfterLine(b[start..])
  {
    i := start;
    while i < |b| && b[i] != '\n'
      invariant start <= i <= |b| && AfterLine(b[i..]) == AfterLine(b[start..])
    {
      AfterAt(b, i);
      i := i + 1;
    }
  }

  lemma BlockStep(out: string, b: string, i: nat, j: nat)
    requires i < |b| && StartsBlock(b[i..]) && From(b, j) == AfterBlock(b[i + 2..])
    ensures (out + [' ']) + Strip(From(b, j)) == out + Strip(From(b, i))
  {
    StripAt(b, i);
    var rest := Strip(From(b, j));
    assert out + ([' '] + rest) == (out + [' ']) + rest;
  }

  lemma LineStep(b: string, i: nat, j: nat)
    requires i < |b| && StartsLine(b[i..]) && From(b, j) == AfterLine(b[i + 2..])
    ensures Strip(From(b, j)) == Strip(From(b, i))
  {
    StripAt(b, i);
  }

  lemma CodeStep(out: string, b: string, i: nat)
    requires i < |b| && !StartsBlock(b[i..]) && !StartsLine(b[i..])
    ensures (out + [b[i]]) + Strip(From(b, i + 1)) == out + Strip(From(b, i))
  {
    StripAt(b, i);
    var c, rest := b[i], Strip(b[i + 1..]);
    assert out + ([c] + rest) == (out + [c]) + rest;
  }

  /** strip_comments: one index over the bytes, one growing output. */
  method StripLoop(b: string) returns (out: string)
    ensures out == Strip(b)
  {
    out := [];
    var i := 0;
    while i < |b|
      invariant out + Strip(From(b, i)) == Strip(b)
    {
      ghost var start := i;
      if i + 1 < |b| && b[i] == '/' && b[i + 1] == '*' {
        i := SkipBlock(b, i + 2);
        BlockStep(out, b, start, i);
        out := out + [' '];
      } else if i + 1 < |b| && b[i] == '/' && b[i + 1] == '/' {
        i := SkipLine(b, i + 2);
        LineStep(b, start, i);
      } else {
        CodeStep(out, b, i);
        out := out + [b[i]];
        i := i + 1;
      }
    }
    assert out + [] == out;
  }

  // -- What the output can contain --------------------------------------------------

  predicate HasOpenerAt(s: string, i: int) {
    0 <= i && i + 1 < |s| && s[i] == '/' && (s[i + 1] == '*' || s[i + 1] == '/')
  }

  ghost predicate NoOpener(s: string) {
    forall i :: !HasOpenerAt(s, i)
  }

  /** The output never holds a comment opener. */
  lemma {:induction false} OutputHasNoOpener(s: string)
    ensures NoOpener(Strip(s))
    decreases |s|
  {
    if s == [] {
    } else if StartsBlock(s) {
      OutputHasNoOpener(AfterBlock(s[2..]));
      PrependKeepsNoOpener(' ', Strip(AfterBlock(s[2..])));
    } else if StartsLine(s) {
      OutputHasNoOpener(AfterLine(s[2..]));
    } else {
      OutputHasNoOpener(s[1..]);
      var rest := Strip(s[1..]);
      if s[0] == '/' && |s| > 1 {
        assert rest == [s[1]] + Strip(s[1..][1..]);
      }
      PrependKeepsNoOpener(s[0], rest);
    }
  }

  lemma PrependKeepsNoOpener(c: char, rest: string)
    requires NoOpener(rest)
    requires c == '/' && rest != [] ==> rest[0] != '*' && rest[0] != '/'
    ensures NoOpener([c] + rest)
  {
    var all := [c] + rest;
    forall i ensures !HasOpenerAt(all, i) {
      assert !HasOpenerAt(rest, i - 1);
      assert i > 0 && i + 1 < |all| ==> all[i] == rest[i - 1] && all[i + 1] == rest[i];
    }
  }

  /** A text without openers passes through untouched, so scanning twice is scanning once. */
  lemma {:induction false} NoOpenerPassesThrough(s: string)
    requires NoOpener(s)
    ensures Strip(s) == s
  {
    if s != [] {
      assert !HasOpenerAt(s, 0);
      forall i ensures !HasOpenerAt(s[1..], i) {
        if HasOpenerAt(s[1..], i) { assert HasOpenerAt(s, i + 1); }
      }
      NoOpenerPassesThrough(s[1..]);
    }
  }

  lemma StripIsIdempotent(s: string)
    ensures Strip(Strip(s)) == Strip(s)
  {
    OutputHasNoOpener(s);
    NoOpenerPassesThrough(Strip(s));
  }

  // -- Sources as segments ---------------------------------------------------------

  /** A source is code characters, closed comments, line comments (which stop before their
      newline), and possibly one last block comment that is never closed. */
  datatype Segment = Code(c: char) | Block(text: string) | Line(text: string) | Unclosed(text: string)

  predicate HasClose(text: string) {
    exists i :: 0 <= i < |text| - 1 && text[i] == '*' && text[i + 1] == '/'
  }

  predicate WellFormed(segs: seq<Segment>) {
    segs == [] ||
    (&& WellFormed(segs[1..])
     && match segs[0]
        case Code(c) => c != '/' || segs[1..] == [] || (segs[1].Code? && segs[1].c != '/' && segs[1].c != '*')
        case Block(text) => !HasClose(text)
        case Line(text) => '\n' !in text && (segs[1..] == [] || segs[1] == Code('\n'))
        case Unclosed(text) => !HasClose(text) && segs[1..] == [])
  }

  function RenderOne(seg: Segment): string {
    match seg
    case Code(c) => [c]
    case Block(text) => "/*" + text + "*/"
    case Line(text) => "//" + text
    case Unclosed(text) => "/*" + text
  }

  function Render(segs: seq<Segment>): string {
    if segs == [] then [] else RenderOne(segs[0]) + Render(segs[1..])
  }

  /** What is left of the segments: code, and one space for each block comment. */
  function Skeleton(segs: seq<Segment>): string {
    if segs == [] then []
    else match segs[0]
      case Code(c) => [c] + Skeleton(segs[1..])
      case Line(_) => Skeleton(segs[1..])
      case _ => [' '] + Skeleton(segs[1..])
  }

  lemma SuffixHasClose(text: string)
    requires text != [] && HasClose(text[1..])
    ensures HasClose(text)
  {
    var i :| 0 <= i < |text[1..]| - 1 && text[1..][i] == '*' && text[1..][i + 1] == '/';
    assert text[i + 1] == '*' && text[i + 1 + 1] == '/';
  }

  lemma FrontHasClose(text: string)
    requires StartsClose(text)
    ensures HasClose(text)
  {
    assert text[0] == '*' && text[0 + 1] == '/';
  }

  lemma ConsHasClose(c: char, t: string)
    requires HasClose([c] + t)
    ensures HasClose(t) || StartsClose([c] + t)
  {
    var text := [c] + t;
    var i :| 0 <= i < |text| - 1 && text[i] == '*' && text[i + 1] == '/';
    if i > 0 { assert t[i - 1] == '*' && t[i - 1 + 1] == '/'; }
  }

  lemma {:induction false} ScanBlock(text: string, rest: string)
    requires !HasClose(text)
    ensures AfterBlock(text + ("*/" + rest)) == rest
    ensures AfterBlock(text) == []
  {
    var all := text + ("*/" + rest);
    if text == [] {
      assert all == "*/" + rest;
    } else {
      assert all[1..] == text[1..] + ("*/" + rest);
      if HasClose(text[1..]) { SuffixHasClose(text); }
      ScanBlock(text[1..], rest);
      if StartsClose(text) { FrontHasClose(text); }
      assert !StartsClose(all);
    }
  }

  lemma {:induction false} ScanLine(text: string, rest: string)
    requires '\n' !in text && (rest == [] || rest[0] == '\n')
    ensures AfterLine(text + rest) == rest
  {
    if text == [] {
      assert text + rest == rest;
    } else {
      assert (text + rest)[1..] == text[1..] + rest;
      ScanLine(text[1..], rest);
    }
  }

  /** Scanning a rendered source leaves exactly its skeleton: no comment text survives. */
  lemma {:induction false} StripLeavesTheSkeleton(segs: seq<Segment>)
    requires WellFormed(segs)
    ensures Strip(Render(segs)) == Skeleton(segs)
  {
    if segs != [] {
      var rest := Render(segs[1..]);
      StripLeavesTheSkeleton(segs[1..]);
      match segs[0]
      case Code(c) =>
        if segs[1..] != [] && segs[1].Code? { assert rest == [segs[1].c] + Render(segs[1..][1..]); }
        StripCode(c, rest);
      case Block(text) => StripBlock(text, rest);
      case Line(text) =>
        if segs[1..] != [] { assert rest == ['\n'] + Render(segs[1..][1..]); }
        StripLineComment(text, rest);
      case Unclosed(text) =>
        ScanBlock(text, []);
        assert ("/*" + text)[2..] == text;
        assert "/*" + text + rest == "/*" + text;
    }
  }

  lemma StripCode(c: char, rest: string)
    requires c != '/' || rest == [] || (rest[0] != '/' && rest[0] != '*')
    ensures Strip([c] + rest) == [c] + Strip(rest)
  {
    assert ([c] + rest)[1..] == rest;
  }

  lemma StripBlock(text: string, rest: string)
    requires !HasClose(text)
    ensures Strip("/*" + text + "*/" + rest) == [' '] + Strip(rest)
  {
    var all := "/*" + text + "*/" + rest;
    assert all[2..] == text + ("*/" + rest);
    ScanBlock(text, rest);
  }

  lemma StripLineComment(text: string, rest: string)
    requires '\n' !in text && (rest == [] || rest[0] == '\n')
    ensures Strip("//" + text + rest) == Strip(rest)
  {
    var all := "//" + text + rest;
    assert all[2..] == text + rest;
    ScanLine(text, rest);
  }

  lemma PrependSegment(seg: Segment, more: seq<Segment>)
    requires WellFormed(more)
    requires match seg
      case Code(c) => c != '/' || more == [] || (more[0].Code? && more[0].c != '/' && more[0].c != '*')
      case Block(text) => !HasClose(text)
      case Line(text) => '\n' !in text && (more == [] || more[0] == Code('\n'))
      case Unclosed(text) => !HasClose(text) && more == []
    ensures WellFormed([seg] + more) && Render([seg] + more) == RenderOne(seg) + Render(more)
  {
    assert ([seg] + more)[1..] == more;
  }

  lemma BlockFirst(s: string, text: string, more: seq<Segment>)
    requires StartsBlock(s) && s[2..] == text + "*/" + Render(more) && !HasClose(text) && WellFormed(more)
    ensures WellFormed([Block(text)] + more) && Render([Block(text)] + more) == s
  {
    PrependSegment(Block(text), more);
    assert s == "/*" + s[2..];
    Regroup("/*", text + "*/", Render(more));
    Regroup("/*", text, "*/");
  }

  lemma UnclosedFirst(s: string)
    requires StartsBlock(s) && !HasClose(s[2..])
    ensures WellFormed([Unclosed(s[2..])]) && Render([Unclosed(s[2..])]) == s
  {
    PrependSegment(Unclosed(s[2..]), []);
    assert [Unclosed(s[2..])] + [] == [Unclosed(s[2..])];
    assert s == "/*" + s[2..] + [];
  }

  lemma LineFirst(s: string, text: string, more: seq<Segment>)
    requires StartsLine(s) && s[2..] == text + Render(more) && '\n' !in text && WellFormed(more)
    requires more == [] || more[0] == Code('\n')
    ensures WellFormed([Line(text)] + more) && Render([Line(text)] + more) == s
  {
    PrependSegment(Line(text), more);
    assert s == "//" + s[2..];
    Regroup("//", text, Render(more));
  }

  lemma CodeFirst(s: string, more: seq<Segment>)
    requires s != [] && s[1..] == Render(more) && WellFormed(more)
    requires s[0] != '/' || more == [] || (more[0].Code? && more[0].c != '/' && more[0].c != '*')
    ensures WellFormed([Code(s[0])] + more) && Render([Code(s[0])] + more) == s
  {
    PrependSegment(Code(s[0]), more);
    assert s == [s[0]] + s[1..];
  }

  /** Every source is the rendering of some well-formed segments. */
  lemma {:induction false} EverySourceIsSegments(s: string) returns (segs: seq<Segment>)
    ensures WellFormed(segs) && Render(segs) == s
    decreases |s|
  {
    if s == [] {
      segs := [];
    } else if StartsBlock(s) {
      var text, closed := CutBlock(s[2..]);
      if closed {
        var more := EverySourceIsSegments(AfterBlock(s[2..]));
        BlockFirst(s, text, more);
        segs := [Block(text)] + more;
      } else {
        UnclosedFirst(s);
        segs := [Unclosed(s[2..])];
      }
    } else if StartsLine(s) {
      var text := CutLine(s[2..]);
      var more := EverySourceIsSegments(AfterLine(s[2..]));
      NewlineComesFirst(more);
      LineFirst(s, text, more);
      segs := [Line(text)] + more;
    } else {
      var more := EverySourceIsSegments(s[1..]);
      if s[0] == '/' && |s| > 1 { FirstIsCode(more); }
      CodeFirst(s, more);
      segs := [Code(s[0])] + more;
    }
  }

  lemma FirstIsCode(segs: seq<Segment>)
    requires Render(segs) != [] && Render(segs)[0] != '/'
    ensures segs != [] && segs[0] == Code(Render(segs)[0])
  {
    assert segs != [];
    assert Render(segs)[0] == RenderOne(segs[0])[0];
  }

  lemma NewlineComesFirst(segs: seq<Segment>)
    requires Render(segs) == [] || Render(segs)[0] == '\n'
    ensures segs == [] || segs[0] == Code('\n')
  {
    if segs != [] {
      assert Render(segs)[0] == RenderOne(segs[0])[0];
    }
  }

  lemma {:induction false} CutBlock(s: string) returns (text: string, closed: bool)
    ensures !HasClose(text)
    ensures closed ==> s == text + "*/" + AfterBlock(s)
    ensures !closed ==> s == text
  {
    if |s| < 2 {
      text, closed := s, false;
    } else if StartsClose(s) {
      text, closed := [], true;
    } else {
      var t, c := CutBlock(s[1..]);
      text, closed := [s[0]] + t, c;
      assert t != [] ==> t[0] == s[1];
      if HasClose(text) { ConsHasClose(s[0], t); }
    }
  }

  lemma {:induction false} CutLine(s: string) returns (text: string)
    ensures '\n' !in text && s == text + AfterLine(s)
    ensures AfterLine(s) == [] || AfterLine(s)[0] == '\n'
  {
    if s == [] || s[0] == '\n' {
      text := [];
    } else {
      var t := CutLine(s[1..]);
      text := [s[0]] + t;
    }
  }

  /** The same code around comments whose texts may differ. */
  predicate SameButForCommentText(a: seq<Segment>, b: seq<Segment>) {
    |a| == |b| &&
    forall i :: 0 <= i < |a| ==>
      match a[i]
      case Code(_) => b[i] == a[i]
      case Block(_) => b[i].Block?
      case Line(_) => b[i].Line?
      case Unclosed(_) => b[i].Unclosed?
  }

  lemma {:induction false} SkeletonIgnoresCommentText(a: seq<Segment>, b: seq<Segment>)
    requires SameButForCommentText(a, b)
    ensures Skeleton(a) == Skeleton(b)
  {
    if a != [] {
      assert SameButForCommentText(a[1..], b[1..]) by {
        forall i | 0 <= i < |a[1..]|
          ensures match a[1..][i]
            case Code(_) => b[1..][i] == a[1..][i]
            case Block(_) => b[1..][i].Block?
            case Line(_) => b[1..][i].Line?
            case Unclosed(_) => b[1..][i].Unclosed?
        {
          assert a[1..][i] == a[i + 1] && b[1..][i] == b[i + 1];
        }
      }
      SkeletonIgnoresCommentText(a[1..], b[1..]);
    }
  }

  // -- The signature -----------------------------------------------------------------

  /** The parts between white space, empty ones included. */
  function SpaceParts(s: string): (parts: seq<string>)
    ensures |parts| > 0
  {
    if s == [] then [[]]
    else
      var rest := SpaceParts(s[1..]);
      if IsSpace(s[0]) then [[]] + rest else [[s[0]] + rest[0]] + rest[1..]
  }

  function NonEmpty(parts: seq<string>): seq<string> {
    if parts == [] then []
    else if parts[0] == [] then NonEmpty(parts[1..])
    else [parts[0]] + NonEmpty(parts[1..])
  }

  /** split_whitespace. */
  function Words(s: string): seq<string> {
    NonEmpty(SpaceParts(s))
  }

  /** The word list of each statement. */
  function Statements(parts: seq<string>): (r: seq<seq<string>>)
    ensures |r| == |parts|
  {
    if parts == [] then [] else [Words(parts[0])] + Statements(parts[1..])
  }

  predicate Contains(s: string, part: string) {
    exists i :: 0 <= i <= |s| && part <= s[i..]
  }

  /** The statements that mention the bridge, in order. */
  function Kept(statements: seq<seq<string>>): seq<seq<string>> {
    if statements == [] then []
    else if Contains(Join(statements[0], ' '), "llingr_") then [statements[0]] + Kept(statements[1..])
    else Kept(statements[1..])
  }

  /** Statements printed with one space between words and ";\n" between statements. */
  function Print(statements: seq<seq<string>>): string {
    if statements == [] then []
    else if |statements| == 1 then Join(statements[0], ' ')
    else Join(statements[0], ' ') + [';'] + (['\n'] + Print(statements[1..]))
  }

  /** The kept statements of a source. */
  function KeptStatements(src: string): seq<seq<string>> {
    Kept(Statements(Split(Strip(src), ';')))
  }

  /** abi_signature. */
  function AbiSignature(src: string): string {
    Print(KeptStatements(src))
  }

  // -- White space does not matter ----------------------------------------------------

  /** Every run of white space becomes one blank. */
  function Squash(s: string): string {
    if s == [] then []
    else if IsSpace(s[0]) then
      if |s| > 1 && IsSpace(s[1]) then Squash(s[1..]) else [' '] + Squash(s[1..])
    else [s[0]] + Squash(s[1..])
  }

  function SquashAll(parts: seq<string>): (r: seq<string>)
    ensures |r| == |parts|
  {
    if parts == [] then [] else [Squash(parts[0])] + SquashAll(parts[1..])
  }

  lemma {:induction false} SquashCommutesWithSplit(s: string)
    ensures Split(Squash(s), ';') == SquashAll(Split(s, ';'))
  {
    if s != [] {
      SquashCommutesWithSplit(s[1..]);
      var rest := Split(s[1..], ';');
      assert SquashAll(rest) == [Squash(rest[0])] + SquashAll(rest[1..]);
      if |s| > 1 && IsSpace(s[1]) { assert rest[0] != [] && rest[0][0] == s[1]; }
      if |s| > 1 && !IsSpace(s[1]) { assert rest[0] == [] || rest[0][0] == s[1]; }
      if s[0] == ';' {
        var q := Squash(s[1..]);
        assert Squash(s) == [';'] + q;
        assert ([';'] + q)[1..] == q;
        assert ([[]] + rest)[1..] == rest;
      } else {
        var first := [s[0]] + rest[0];
        assert first[1..] == rest[0];
        assert Split(s, ';') == [first] + rest[1..];
        assert ([first] + rest[1..])[1..] == rest[1..];
        SquashHead(s, rest);
      }
    }
  }

  lemma SquashHead(s: string, rest: seq<string>)
    requires s != [] && s[0] != ';' && rest == Split(s[1..], ';')
    requires Split(Squash(s[1..]), ';') == SquashAll(rest)
    requires |s| > 1 && IsSpace(s[1]) <==> rest[0] != [] && IsSpace(rest[0][0])
    ensures Split(Squash(s), ';') == [Squash([s[0]] + rest[0])] + SquashAll(rest[1..])
  {
    var first, q := [s[0]] + rest[0], Squash(s[1..]);
    assert first[1..] == rest[0];
    var blank := [' '] + q;
    assert blank[1..] == q;
    var kept := [s[0]] + q;
    assert kept[1..] == q;
  }

  lemma {:induction false} SquashKeepsParts(s: string)
    ensures SpaceParts(Squash(s))[0] == SpaceParts(s)[0]
    ensures NonEmpty(SpaceParts(Squash(s))[1..]) == NonEmpty(SpaceParts(s)[1..])
  {
    if s != [] {
      var a, b := SpaceParts(s[1..]), SpaceParts(Squash(s[1..]));
      SquashKeepsParts(s[1..]);
      assert a == [a[0]] + a[1..] && b == [b[0]] + b[1..];
      assert NonEmpty(a) == NonEmpty(b);
      var q := Squash(s[1..]);
      assert ([s[0]] + q)[1..] == q && ([' '] + q)[1..] == q;
      assert ([[]] + a)[1..] == a && ([[]] + b)[1..] == b;
    }
  }

  lemma SquashKeepsWords(s: string)
    ensures Words(Squash(s)) == Words(s)
  {
    SquashKeepsParts(s);
    var a, b := SpaceParts(s), SpaceParts(Squash(s));
    assert a == [a[0]] + a[1..] && b == [b[0]] + b[1..];
  }

  lemma {:induction false} SquashKeepsStatements(parts: seq<string>)
    ensures Statements(SquashAll(parts)) == Statements(parts)
  {
    if parts != [] {
      SquashKeepsWords(parts[0]);
      SquashKeepsStatements(parts[1..]);
    }
  }

  /** Sources whose comment-free texts differ only in the lengths and kinds of white-space runs
      have the same signature. Rewriting comment text is one such difference: see
      CommentTextDoesNotMatter. */
  lemma WhiteSpaceRunsDoNotMatter(a: seq<Segment>, b: seq<Segment>)
    requires WellFormed(a) && WellFormed(b) && Squash(Skeleton(a)) == Squash(Skeleton(b))
    ensures AbiSignature(Render(a)) == AbiSignature(Render(b))
  {
    StripLeavesTheSkeleton(a);
    StripLeavesTheSkeleton(b);
    SquashCommutesWithSplit(Skeleton(a));
    SquashCommutesWithSplit(Skeleton(b));
    SquashKeepsStatements(Split(Skeleton(a), ';'));
    SquashKeepsStatements(Split(Skeleton(b), ';'));
  }

  /** Lengthening a run of white space is such a difference. */
  lemma {:induction false} LongerRunsSquashAlike(before: string, w: char, extra: char, after: string)
    requires IsSpace(w) && IsSpace(extra)
    ensures Squash(before + [w, extra] + after) == Squash(before + [w] + after)
  {
    var long, short := before + [w, extra] + after, before + [w] + after;
    if before == [] {
      assert long[1..] == [extra] + after && ([extra] + after)[1..] == after && short[1..] == after;
    } else {
      assert long[1..] == before[1..] + [w, extra] + after;
      assert short[1..] == before[1..] + [w] + after;
      LongerRunsSquashAlike(before[1..], w, extra, after);
    }
  }

  /** Rewriting the text inside comments leaves the scanner's output and the signature alone. */
  lemma CommentTextDoesNotMatter(a: seq<Segment>, b: seq<Segment>)
    requires WellFormed(a) && WellFormed(b) && SameButForCommentText(a, b)
    ensures Strip(Render(a)) == Strip(Render(b))
    ensures AbiSignature(Render(a)) == AbiSignature(Render(b))
  {
    StripLeavesTheSkeleton(a);
    StripLeavesTheSkeleton(b);
    SkeletonIgnoresCommentText(a, b);
  }

  // -- Everything else does ------------------------------------------------------------

  predicate IsWord(w: string) {
    w != [] && NoSpace(w) && ';' !in w
  }

  predicate AllWords(words: seq<string>) {
    forall i :: 0 <= i < |words| ==> IsWord(words[i])
  }

  lemma {:induction false} SpacePartsLackSpace(s: string, k: nat)
    requires k < |SpaceParts(s)| && ';' !in s
    ensures NoSpace(SpaceParts(s)[k]) && ';' !in SpaceParts(s)[k]
  {
    if s != [] {
      if IsSpace(s[0]) {
        if k > 0 { SpacePartsLackSpace(s[1..], k - 1); }
      } else {
        SpacePartsLackSpace(s[1..], k);
      }
    }
  }

  lemma {:induction false} NonEmptyAreWords(parts: seq<string>)
    requires forall k :: 0 <= k < |parts| ==> NoSpace(parts[k]) && ';' !in parts[k]
    ensures AllWords(NonEmpty(parts))
  {
    if parts != [] { NonEmptyAreWords(parts[1..]); }
  }

  lemma WordsAreWords(s: string)
    requires ';' !in s
    ensures AllWords(Words(s))
  {
    var parts := SpaceParts(s);
    forall k | 0 <= k < |parts| ensures NoSpace(parts[k]) && ';' !in parts[k] {
      SpacePartsLackSpace(s, k);
    }
    NonEmptyAreWords(parts);
  }

  /** Kept statements are non-empty lists of words. */
  predicate Printable(statements: seq<seq<string>>) {
    forall i :: 0 <= i < |statements| ==> statements[i] != [] && AllWords(statements[i])
  }

  lemma {:induction false} KeptArePrintable(parts: seq<string>)
    requires forall k :: 0 <= k < |parts| ==> ';' !in parts[k]
    ensures Printable(Kept(Statements(parts)))
  {
    if parts != [] {
      WordsAreWords(parts[0]);
      assert Statements(parts)[1..] == Statements(parts[1..]);
      KeptArePrintable(parts[1..]);
      EmptyMentionsNothing(Words(parts[0]));
    }
  }

  lemma EmptyMentionsNothing(words: seq<string>)
    ensures words == [] ==> !Contains(Join(words, ' '), "llingr_")
  {
  }

  lemma {:induction false} JoinLacks(words: seq<string>, c: char)
    requires c != ' ' && forall i :: 0 <= i < |words| ==> c !in words[i]
    ensures c !in Join(words, ' ')
  {
    if |words| > 1 { JoinLacks(words[1..], c); }
  }

  /** One space between words loses nothing. */
  lemma WordsAreReadBack(a: seq<string>, b: seq<string>)
    requires a != [] && b != [] && AllWords(a) && AllWords(b) && Join(a, ' ') == Join(b, ' ')
    ensures a == b
  {
    assert IsSpace(' ');
    SplitUndoesJoin(a, ' ');
    SplitUndoesJoin(b, ' ');
  }

  lemma PrintCuts(statements: seq<seq<string>>)
    requires statements != [] && Printable(statements)
    ensures Split(Print(statements), ';')[0] == Join(statements[0], ' ')
    ensures |statements| == 1 ==> Split(Print(statements), ';') == [Join(statements[0], ' ')]
    ensures |statements| > 1 ==>
      Split(Print(statements), ';') == [Join(statements[0], ' ')] + Split(['\n'] + Print(statements[1..]), ';')
  {
    JoinLacks(statements[0], ';');
    SplitOnePart(Join(statements[0], ' '), ';', if |statements| > 1 then ['\n'] + Print(statements[1..]) else []);
  }

  lemma {:induction false} PrintIsInjective(a: seq<seq<string>>, b: seq<seq<string>>)
    requires Printable(a) && Printable(b) && Print(a) == Print(b)
    ensures a == b
  {
    if a == [] || b == [] {
      if a != [] { PrintIsNotEmpty(a); }
      if b != [] { PrintIsNotEmpty(b); }
    } else {
      PrintCuts(a);
      PrintCuts(b);
      assert Join(a[0], ' ') == Join(b[0], ' ');
      WordsAreReadBack(a[0], b[0]);
      assert |a| == 1 <==> |b| == 1;
      if |a| > 1 {
        PrintTail(a, b);
        PrintIsInjective(a[1..], b[1..]);
      }
      assert a == [a[0]] + a[1..] && b == [b[0]] + b[1..];
    }
  }

  lemma PrintTail(a: seq<seq<string>>, b: seq<seq<string>>)
    requires |a| > 1 && |b| > 1 && a[0] == b[0] && Print(a) == Print(b)
    ensures Print(a[1..]) == Print(b[1..])
  {
    var head := Join(a[0], ' ') + [';'] + ['\n'];
    assert Print(a) == head + Print(a[1..]);
    assert Print(b) == head + Print(b[1..]);
    assert Print(a)[|head|..] == Print(a[1..]);
  }

  lemma PrintIsNotEmpty(a: seq<seq<string>>)
    requires a != [] && Printable(a)
    ensures Print(a) != []
  {
    assert IsWord(a[0][0]);
  }

  /** The signature tells apart exactly the kept statements: it changes when any word of any of
      them changes, moves, appears or disappears (a swap of two parameter names included), and
      in no other case. */
  lemma SignatureIsExact(a: string, b: string)
    ensures AbiSignature(a) == AbiSignature(b) <==> KeptStatements(a) == KeptStatements(b)
  {
    SourceIsPrintable(a);
    SourceIsPrintable(b);
    if AbiSignature(a) == AbiSignature(b) { PrintIsInjective(KeptStatements(a), KeptStatements(b)); }
  }

  lemma SourceIsPrintable(src: string)
    ensures Printable(KeptStatements(src))
  {
    var parts := Split(Strip(src), ';');
    forall k | 0 <= k < |parts| ensures ';' !in parts[k] {
      SplitPartsLack(Strip(src), ';', k);
    }
    KeptArePrintable(parts);
  }
}
