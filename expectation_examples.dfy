/**
  Events from the extractor's own test list, tagged as the English tagger
  tags them, with antonyms off (the default). Each expectation is stated as
  the list of its words, which the extractor joins with single spaces.
*/
module ExpectationExamples {
  import opened Wrappers
  import opened Text
  import opened Patterns
  import opened Expectations

  lemma NonAuxSlots(t: Token)
    requires t.pos != "AUX"
    ensures !SlotMatches(AuxPresentOrPast, t) && !SlotMatches(IsOrWas, t)
  {
    assert Pos in Alternatives(AuxPresentOrPast)[0] && Pos in Alternatives(AuxPresentOrPast)[1];
    assert Pos in Alternatives(IsOrWas)[0] && Pos in Alternatives(IsOrWas)[1];
  }

  lemma NonVerbSlots(t: Token)
    requires t.pos != "VERB"
    ensures !SlotMatches(BareVerb, t) && !SlotMatches(FiniteVerb, t)
  {
    assert Pos in Alternatives(BareVerb)[0];
    assert forall j :: 0 <= j < 3 ==> Pos in Alternatives(FiniteVerb)[j];
  }

  lemma NonNegationSlot(t: Token)
    requires t.text != "not" && t.text != "n't"
    ensures !SlotMatches(Negation, t)
  {
    assert Text in Alternatives(Negation)[0] && Text in Alternatives(Negation)[1];
  }

  const Ben: Token := Token("Ben", "Ben", "PROPN", "NNP")
  const Marathons: Token := Token("marathons", "marathon", "NOUN", "NNS")
  const Is: Token := Token("is", "be", "AUX", "VBZ")
  const Winning: Token := Token("winning", "win", "VERB", "VBG")

  const Wins: Token := Token("wins", "win", "VERB", "VBZ")
  const RanOutOfCharacters: seq<Token> := [Token("I", "I", "PRON", "PRP"), Token("ran", "run", "VERB", "VBD"),
    Token("out", "out", "ADP", "RP"), Token("of", "of", "ADP", "IN"), Token("characters", "character", "NOUN", "NNS")]

  /** An event whose second token is a finite main verb is decided by the fifth pattern. */
  lemma FiniteVerbDecided(s: seq<Token>, j: nat)
    requires |s| >= 3 && s[1].pos != "AUX" && j < 3 && AltMatches(Alternatives(FiniteVerb)[j], s[1])
    ensures DecidingPattern(s) == 5
  {
    NonAuxSlots(s[1]);
    assert Checked(s, AuxVerb) == 2 && Checked(s, AuxNot) == 2;
    assert Checked(s, AuxOnly) == 1 && Checked(s, BareFiniteVerb) == 1;
    assert !SlotMatches(AuxNotVerb[0], s[0 + 1]) && !SlotMatches(AuxVerb[0], s[0 + 1]);
    assert !SlotMatches(AuxNot[0], s[0 + 1]) && !SlotMatches(AuxOnly[0], s[0 + 1]);
    assert SlotMatches(BareFiniteVerb[0], s[0 + 1]);
  }

  /** Without antonyms, the fifth pattern yields the one negated sentence with `does`/`did`. */
  lemma VerbExpectation(s: seq<Token>, table: AntonymTable, inflect: Inflector)
    requires |s| >= 2 && DecidingPattern(s) == 5
    ensures ExtractExpectations(s, false, table, inflect)
      == Ok([Sentence([s[0].text, SupportAux(s[1].tag), "not", s[1].lemmaForm] + Texts(s[2..]))])
  {
    var r := [Sentence([s[0].text, SupportAux(s[1].tag), "not", s[1].lemmaForm] + Texts(s[2..]))];
    assert r + [] == r;
  }

  /** "Ben wins marathons" -> "Ben does not win marathons". */
  lemma BenWinsMarathons(table: AntonymTable, inflect: Inflector)
    ensures ExtractExpectations([Ben, Wins, Marathons], false, table, inflect)
      == Ok([Sentence(["Ben", "does", "not", "win", "marathons"])])
  {
    var s := [Ben, Wins, Marathons];
    FiniteVerbDecided(s, 0);
    VerbExpectation(s, table, inflect);
    assert Texts(s[2..]) == ["marathons"];
    assert [s[0].text, SupportAux(s[1].tag), "not", s[1].lemmaForm] + Texts(s[2..]) == ["Ben", "does", "not", "win", "marathons"];
  }

  /** "I ran out of characters" -> "I did not run out of characters". */
  lemma IRanOutOfCharacters(table: AntonymTable, inflect: Inflector)
    ensures ExtractExpectations(RanOutOfCharacters, false, table, inflect)
      == Ok([Sentence(["I", "did", "not", "run", "out", "of", "characters"])])
  {
    var s := RanOutOfCharacters;
    FiniteVerbDecided(s, 1);
    VerbExpectation(s, table, inflect);
    assert s[2..] == [s[2], s[3], s[4]];
    assert Texts([s[2], s[3], s[4]]) == [s[2].text, s[3].text, s[4].text];
    assert [s[0].text, SupportAux(s[1].tag), "not", s[1].lemmaForm] + Texts(s[2..]) == ["I", "did", "not", "run", "out", "of", "characters"];
  }

  /** "Ben is winning marathons" is decided by the fourth pattern. */
  lemma BenIsWinningDecided()
    ensures DecidingPattern([Ben, Is, Winning, Marathons]) == 4
  {
    var s := [Ben, Is, Winning, Marathons];
    assert AltMatches(Alternatives(AuxPresentOrPast)[0], s[1]);
    assert AltMatches(Alternatives(IsOrWas)[0], s[1]);
    NonNegationSlot(s[2]);
    assert !SlotMatches(BareVerb, s[2]) by {
      assert Tag in Alternatives(BareVerb)[0];
    }
    assert Checked(s, AuxNotVerb) == 3 && Checked(s, AuxVerb) == 2 && Checked(s, AuxNot) == 2;
    assert Checked(s, AuxOnly) == 1;
    assert !SlotMatches(AuxNotVerb[1], s[1 + 1]) && !SlotMatches(AuxVerb[1], s[1 + 1]);
    assert !SlotMatches(AuxNot[1], s[1 + 1]) && SlotMatches(AuxOnly[0], s[0 + 1]);
  }

  /** "Ben is winning marathons" -> "Ben is not winning marathons". */
  lemma BenIsWinningMarathons(useAntonyms: bool, table: AntonymTable, inflect: Inflector)
    ensures ExtractExpectations([Ben, Is, Winning, Marathons], useAntonyms, table, inflect)
      == Ok([Sentence(["Ben", "is", "not", "winning", "marathons"])])
  {
    var s := [Ben, Is, Winning, Marathons];
    BenIsWinningDecided();
    assert s[2..] == [s[2], s[3]];
    assert Texts([s[2], s[3]]) == [s[2].text, s[3].text];
    assert [s[0].text, s[1].text, "not"] + Texts(s[2..]) == ["Ben", "is", "not", "winning", "marathons"];
  }

  /** "Ben is not winning marathons" -> "Ben is winning marathons". */
  lemma BenIsNotWinningMarathons(useAntonyms: bool, table: AntonymTable, inflect: Inflector)
    ensures ExtractExpectations([Ben, Is, NotToken, Winning, Marathons], useAntonyms, table, inflect)
      == Ok([Sentence(["Ben", "is", "winning", "marathons"])])
  {
    var s := [Ben, Is, Winning, Marathons];
    BenIsWinningDecided();
    BeNegationRoundTrip(s, useAntonyms, table, inflect);
    assert Negated(s) == [Ben, Is, NotToken, Winning, Marathons];
    assert Texts([Ben, Is, Winning, Marathons]) == [Ben.text, Is.text, Winning.text, Marathons.text];
  }

  const Does: Token := Token("does", "do", "AUX", "VBZ")
  const Win: Token := Token("win", "win", "VERB", "VB")

  /** An auxiliary, a negation and a bare verb after the subject: the first pattern decides. */
  lemma AuxNotVerbDecided(s: seq<Token>)
    requires |s| >= 4 && SlotMatches(AuxPresentOrPast, s[1]) && SlotMatches(Negation, s[2]) && SlotMatches(BareVerb, s[3])
    ensures DecidingPattern(s) == 1
  {
    assert Checked(s, AuxNotVerb) == 3;
    assert SlotMatches(AuxNotVerb[0], s[0 + 1]) && SlotMatches(AuxNotVerb[1], s[1 + 1]) && SlotMatches(AuxNotVerb[2], s[2 + 1]);
  }

  /** Without antonyms, the first pattern yields the inflected verb (when it inflects) and the affirmative with the auxiliary. */
  lemma AuxNotVerbExpectation(s: seq<Token>, table: AntonymTable, inflect: Inflector, form: string)
    requires |s| >= 4 && DecidingPattern(s) == 1 && inflect(s[3].lemmaForm, s[1].tag) == Some(form)
    ensures ExtractExpectations(s, false, table, inflect)
      == Ok([Sentence([s[0].text, form] + Texts(s[4..])), Sentence([s[0].text, s[1].text, s[3].lemmaForm] + Texts(s[4..]))])
  {
    var r := [Sentence([s[0].text, form] + Texts(s[4..])), Sentence([s[0].text, s[1].text, s[3].lemmaForm] + Texts(s[4..]))];
    assert r == [r[0]] + [r[1]] && r + [] == r;
  }

  /** "Ben does not win marathons" -> "Ben wins marathons", "Ben does win marathons". */
  lemma BenDoesNotWinMarathons(table: AntonymTable, inflect: Inflector)
    requires inflect("win", "VBZ") == Some("wins")
    ensures ExtractExpectations([Ben, Does, NotToken, Win, Marathons], false, table, inflect)
      == Ok([Sentence(["Ben", "wins", "marathons"]), Sentence(["Ben", "does", "win", "marathons"])])
  {
    var s := [Ben, Does, NotToken, Win, Marathons];
    assert AltMatches(Alternatives(AuxPresentOrPast)[0], Does);
    assert AltMatches(Alternatives(BareVerb)[0], Win);
    NotTokenSlots();
    AuxNotVerbDecided(s);
    AuxNotVerbExpectation(s, table, inflect, "wins");
    assert Texts(s[4..]) == ["marathons"];
    assert [s[0].text, "wins"] + Texts(s[4..]) == ["Ben", "wins", "marathons"];
    assert [s[0].text, s[1].text, s[3].lemmaForm] + Texts(s[4..]) == ["Ben", "does", "win", "marathons"];
  }
}
