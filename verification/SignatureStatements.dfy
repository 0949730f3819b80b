/** Which statements of a header the signature keeps, read off its comment-free text. */
module SignatureStatements {
  import opened Common
  import opened Text
  import opened StripComments

  // -- Words ----------------------------------------------------------------------

  predicate IsPlainWord(w: string) {
    w != [] && NoSpace(w)
  }

  predicate PlainWords(ws: seq<string>) {
    forall i :: 0 <= i < |ws| ==> IsPlainWord(ws[i])
  }

  /** The characters of a text that are not white space, in order. */
  function Dense(s: string): string {
    if s == [] then [] else if IsSpace(s[0]) then Dense(s[1..]) else [s[0]] + Dense(s[1..])
  }

  function Glued(ws: seq<string>): string {
    if ws == [] then [] else ws[0] + Glued(ws[1..])
  }

  lemma {:induction false} PartsGlueToDense(s: string)
    ensures Glued(SpaceParts(s)) == Dense(s)
  {
    if s != [] {
      var rest := SpaceParts(s[1..]);
      PartsGlueToDense(s[1..]);
      assert rest == [rest[0]] + rest[1..];
      if IsSpace(s[0]) {
        assert ([[]] + rest)[1..] == rest;
      } else {
        assert ([[s[0]] + rest[0]] + rest[1..])[1..] == rest[1..];
        Regroup([s[0]], rest[0], Glued(rest[1..]));
      }
    }
  }

  lemma {:induction false} NonEmptyGluesAlike(parts: seq<string>)
    ensures Glued(NonEmpty(parts)) == Glued(parts)
  {
    if parts != [] {
      var more := NonEmpty(parts[1..]);
      NonEmptyGluesAlike(parts[1..]);
      GluedOfCons(parts[0], more);
      if parts[0] == [] { assert Glued(parts) == [] + Glued(parts[1..]); }
    }
  }

  lemma GluedOfCons(first: string, more: seq<string>)
    ensures Glued([first] + more) == first + Glued(more)
  {
    assert ([first] + more)[1..] == more;
  }

  lemma {:induction false} NonEmptyOfPlain(ws: seq<string>)
    requires PlainWords(ws)
    ensures NonEmpty(ws) == ws
  {
    if ws != [] {
      NonEmptyOfPlain(ws[1..]);
      assert ws == [ws[0]] + ws[1..];
    }
  }

  lemma {:induction false} PartOfPlainWord(w: string, rest: string)
    requires NoSpace(w)
    ensures SpaceParts(w) == [w]
    ensures SpaceParts(w + [' '] + rest) == [w] + SpaceParts(rest)
  {
    if w == [] {
      assert ([] + [' '] + rest)[1..] == rest;
    } else {
      PartOfPlainWord(w[1..], rest);
      assert (w + [' '] + rest)[1..] == w[1..] + [' '] + rest;
      assert [w[0]] + w[1..] == w;
    }
  }

  /** Words joined by one blank are read back. */
  lemma {:induction false} WordsOfJoin(ws: seq<string>)
    requires PlainWords(ws)
    ensures Words(Join(ws, ' ')) == ws
  {
    if ws != [] {
      PartsOfJoin(ws);
      NonEmptyOfPlain(ws);
    }
  }

  lemma {:induction false} PartsOfJoin(ws: seq<string>)
    requires PlainWords(ws) && ws != []
    ensures SpaceParts(Join(ws, ' ')) == ws
  {
    if |ws| == 1 {
      PartOfPlainWord(ws[0], []);
      assert ws == [ws[0]];
    } else {
      PartsOfJoin(ws[1..]);
      PartOfPlainWord(ws[0], Join(ws[1..], ' '));
      assert ws == [ws[0]] + ws[1..];
    }
  }

  lemma {:induction false} PartsLackSpace(s: string, k: nat)
    requires k < |SpaceParts(s)|
    ensures NoSpace(SpaceParts(s)[k])
  {
    if s != [] {
      if IsSpace(s[0]) {
        if k > 0 { PartsLackSpace(s[1..], k - 1); }
      } else {
        PartsLackSpace(s[1..], k);
      }
    }
  }

  lemma {:induction false} NonEmptyArePlain(parts: seq<string>)
    requires forall k :: 0 <= k < |parts| ==> NoSpace(parts[k])
    ensures PlainWords(NonEmpty(parts))
  {
    if parts != [] { NonEmptyArePlain(parts[1..]); }
  }

  /** The words of a text are its characters other than white space, in order and cut into
      non-empty pieces; and any list of words joined by blanks is the words of that text. */
  lemma WordsLoseOnlySpace(s: string)
    ensures PlainWords(Words(s)) && Glued(Words(s)) == Dense(s)
    ensures Words(Join(Words(s), ' ')) == Words(s)
  {
    var parts := SpaceParts(s);
    forall k | 0 <= k < |parts| ensures NoSpace(parts[k]) { PartsLackSpace(s, k); }
    NonEmptyArePlain(parts);
    PartsGlueToDense(s);
    NonEmptyGluesAlike(parts);
    WordsOfJoin(Words(s));
  }

  // -- Mentioning a name ------------------------------------------------------------

  /** A text contains a name exactly when it is the name with something, or nothing, on either
      side. */
  lemma ContainsExactly(s: string, name: string)
    ensures Contains(s, name) <==> exists before, after :: s == before + name + after
  {
    if i :| 0 <= i <= |s| && name <= s[i..] {
      assert s == s[..i] + name + s[i..][|name|..];
    }
    if before: string, after: string :| s == before + name + after {
      assert s[|before|..] == name + after;
    }
  }

  predicate SomeContains(ws: seq<string>, name: string) {
    exists i :: 0 <= i < |ws| && Contains(ws[i], name)
  }

  lemma ContainsStep(s: string, name: string)
    requires s != [] && name != []
    ensures Contains(s, name) <==> name <= s || Contains(s[1..], name)
  {
    if i :| 0 <= i <= |s| && name <= s[i..] {
      assert i > 0 ==> s[i..] == s[1..][i - 1..];
      assert i == 0 ==> s[i..] == s;
    }
    if i :| 0 <= i <= |s[1..]| && name <= s[1..][i..] {
      assert s[1..][i..] == s[i + 1..];
    }
    if name <= s { assert s[0..] == s; }
  }

  lemma SomeContainsStep(ws: seq<string>, name: string)
    requires ws != []
    ensures SomeContains(ws, name) <==> Contains(ws[0], name) || SomeContains(ws[1..], name)
  {
    if i :| 0 <= i < |ws| && Contains(ws[i], name) { assert i > 0 ==> ws[1..][i - 1] == ws[i]; }
    if i :| 0 <= i < |ws[1..]| && Contains(ws[1..][i], name) { assert ws[i + 1] == ws[1..][i]; }
  }

  lemma {:induction false} PrefixIsInTheFirstPart(s: string, name: string)
    requires NoSpace(name)
    ensures name <= s <==> name <= SpaceParts(s)[0]
  {
    if s != [] && name != [] {
      var rest := SpaceParts(s[1..]);
      PrefixIsInTheFirstPart(s[1..], name[1..]);
      if !IsSpace(s[0]) {
        var first := [s[0]] + rest[0];
        assert SpaceParts(s)[0] == first && first[1..] == rest[0];
        assert name <= s <==> name[0] == s[0] && name[1..] <= s[1..];
        assert name <= first <==> name[0] == first[0] && name[1..] <= first[1..];
      }
    }
  }

  /** A name without white space is in a text when it is in one of its parts. */
  lemma {:induction false} NamesAreInParts(s: string, name: string)
    requires name != [] && NoSpace(name)
    ensures Contains(s, name) <==> SomeContains(SpaceParts(s), name)
  {
    if s == [] {
      SomeContainsStep(SpaceParts(s), name);
    } else {
      var parts, rest := SpaceParts(s), SpaceParts(s[1..]);
      NamesAreInParts(s[1..], name);
      ContainsStep(s, name);
      PrefixIsInTheFirstPart(s, name);
      SomeContainsStep(parts, name);
      SomeContainsStep(rest, name);
      if IsSpace(s[0]) {
        assert parts[1..] == rest;
      } else {
        assert parts[1..] == rest[1..] && parts[0][1..] == rest[0];
        ContainsStep(parts[0], name);
      }
    }
  }

  lemma {:induction false} NonEmptyContainsAlike(parts: seq<string>, name: string)
    requires name != []
    ensures SomeContains(NonEmpty(parts), name) <==> SomeContains(parts, name)
  {
    if parts != [] {
      NonEmptyContainsAlike(parts[1..], name);
      SomeContainsStep(parts, name);
      if parts[0] != [] {
        SomeContainsStep(NonEmpty(parts), name);
        assert NonEmpty(parts)[1..] == NonEmpty(parts[1..]);
      }
    }
  }

  /** Collapsing white space neither makes nor hides the mention of a name. */
  lemma MentionsSurviveCollapsing(s: string, name: string)
    requires name != [] && NoSpace(name)
    ensures Contains(Join(Words(s), ' '), name) <==> Contains(s, name)
  {
    var t := Join(Words(s), ' ');
    WordsLoseOnlySpace(s);
    NamesAreInParts(s, name);
    NonEmptyContainsAlike(SpaceParts(s), name);
    NamesAreInParts(t, name);
    NonEmptyContainsAlike(SpaceParts(t), name);
  }

  predicate MentionsBridge(part: string) {
    Contains(part, "llingr_")
  }

  lemma MentionIsInTheText(part: string)
    ensures Contains(Join(Words(part), ' '), "llingr_") <==> MentionsBridge(part)
  {
    MentionsSurviveCollapsing(part, "llingr_");
  }

  // -- What is kept -------------------------------------------------------------------

  /** How many of the first n parts mention the bridge. */
  function MentionsBefore(parts: seq<string>, n: nat): nat
    requires n <= |parts|
  {
    if n == 0 then 0 else MentionsBefore(parts, n - 1) + if MentionsBridge(parts[n - 1]) then 1 else 0
  }

  lemma {:induction false} KeptOfConcat(a: seq<seq<string>>, b: seq<seq<string>>)
    ensures Kept(a + b) == Kept(a) + Kept(b)
  {
    if a == [] {
      assert a + b == b;
    } else {
      assert (a + b)[1..] == a[1..] + b;
      KeptOfConcat(a[1..], b);
    }
  }

  lemma KeptOfOne(words: seq<string>)
    ensures Kept([words]) == if Contains(Join(words, ' '), "llingr_") then [words] else []
  {
    assert [words][1..] == [];
  }

  lemma {:induction false} StatementsAt(parts: seq<string>, i: nat)
    requires i < |parts|
    ensures Statements(parts)[i] == Words(parts[i])
    ensures Statements(parts)[..i] == Statements(parts[..i])
  {
    if i == 0 {
      assert parts[..0] == [];
    } else {
      StatementsAt(parts[1..], i - 1);
      assert parts[..i][1..] == parts[1..][..i - 1];
    }
  }

  lemma {:induction false} CountOfPrefix(parts: seq<string>, m: nat, n: nat)
    requires n <= m <= |parts|
    ensures MentionsBefore(parts[..m], n) == MentionsBefore(parts, n)
  {
    if n > 0 { CountOfPrefix(parts, m, n - 1); }
  }

  /** One more part of the text: kept exactly when it mentions the bridge. */
  lemma KeptStep(parts: seq<string>)
    requires parts != []
    ensures var front, last := parts[..|parts| - 1], parts[|parts| - 1];
            Kept(Statements(parts)) ==
            Kept(Statements(front)) + if MentionsBridge(last) then [Words(last)] else []
  {
    var front, last := parts[..|parts| - 1], parts[|parts| - 1];
    StatementsAt(parts, |parts| - 1);
    assert Statements(parts) == Statements(front) + [Words(last)];
    KeptOfConcat(Statements(front), [Words(last)]);
    KeptOfOne(Words(last));
    MentionIsInTheText(last);
  }

  /** Every part that mentions the bridge has its word list at its place among those that do,
      and nothing else is kept. */
  lemma {:induction false} KeptAreTheMentions(parts: seq<string>)
    ensures |Kept(Statements(parts))| == MentionsBefore(parts, |parts|)
    ensures forall i :: 0 <= i < |parts| && MentionsBridge(parts[i]) ==>
              && MentionsBefore(parts, i) < |Kept(Statements(parts))|
              && Kept(Statements(parts))[MentionsBefore(parts, i)] == Words(parts[i])
  {
    if parts != [] {
      var n := |parts| - 1;
      var front := parts[..n];
      KeptAreTheMentions(front);
      KeptStep(parts);
      CountOfPrefix(parts, n, n);
      forall i | 0 <= i < |parts| && MentionsBridge(parts[i])
        ensures MentionsBefore(parts, i) < |Kept(Statements(parts))|
        ensures Kept(Statements(parts))[MentionsBefore(parts, i)] == Words(parts[i])
      {
        if i < n {
          CountOfPrefix(parts, n, i);
          assert front[i] == parts[i];
        }
      }
    }
  }

  /** The statements the signature prints, read off the comment-free text cut at its semicolons:
      they are the word lists of exactly the parts that mention the bridge, each at its place in
      source order. */
  lemma SignatureHoldsEveryStatement(src: string)
    ensures var parts, kept := Split(Strip(src), ';'), KeptStatements(src);
            && AbiSignature(src) == Print(kept)
            && |kept| == MentionsBefore(parts, |parts|)
            && forall i :: 0 <= i < |parts| && MentionsBridge(parts[i]) ==>
                 MentionsBefore(parts, i) < |kept| && kept[MentionsBefore(parts, i)] == Words(parts[i])
  {
    KeptAreTheMentions(Split(Strip(src), ';'));
  }

  lemma SameWordsSameMention(a: string, b: string)
    requires Words(a) == Words(b)
    ensures MentionsBridge(a) <==> MentionsBridge(b)
  {
    MentionIsInTheText(a);
    MentionIsInTheText(b);
  }

  /** The parts agree in their words except perhaps at n. */
  predicate AgreeButAt(p: seq<string>, q: seq<string>, n: nat) {
    |p| == |q| && n < |p| && forall i :: 0 <= i < |p| && i != n ==> Words(p[i]) == Words(q[i])
  }

  lemma {:induction false} CountsAgree(p: seq<string>, q: seq<string>, n: nat, m: nat)
    requires AgreeButAt(p, q, n) && m <= |p|
    ensures m <= n ==> MentionsBefore(p, m) == MentionsBefore(q, m)
    ensures m > n ==>
              MentionsBefore(p, m) - MentionsBefore(q, m) ==
              (if MentionsBridge(p[n]) then 1 else 0) - (if MentionsBridge(q[n]) then 1 else 0)
  {
    if m > 0 {
      CountsAgree(p, q, n, m - 1);
      if m - 1 != n { SameWordsSameMention(p[m - 1], q[m - 1]); }
    }
  }

  /** A change to any one bridge statement shows: two headers that agree in all statements but
      one, where that one mentions the bridge in either of them and has different words, have
      different signatures, wherever it stands. */
  lemma OneChangedStatementShows(a: string, b: string, n: nat)
    requires AgreeButAt(Split(Strip(a), ';'), Split(Strip(b), ';'), n)
    requires MentionsBridge(Split(Strip(a), ';')[n]) || MentionsBridge(Split(Strip(b), ';')[n])
    requires Words(Split(Strip(a), ';')[n]) != Words(Split(Strip(b), ';')[n])
    ensures AbiSignature(a) != AbiSignature(b)
  {
    var p, q := Split(Strip(a), ';'), Split(Strip(b), ';');
    SignatureHoldsEveryStatement(a);
    SignatureHoldsEveryStatement(b);
    SignatureIsExact(a, b);
    CountsAgree(p, q, n, n);
    CountsAgree(p, q, n, |p|);
    assert MentionsBridge(p[n]) && MentionsBridge(q[n]) ==>
             KeptStatements(a)[MentionsBefore(p, n)] != KeptStatements(b)[MentionsBefore(p, n)];
  }
}
