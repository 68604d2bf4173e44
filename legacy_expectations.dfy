/**
  The first, script-level expectation extractor. It shares the matcher and
  the five generators with the current one, but insists on a proper-noun
  subject, knows only present and past finite verbs in its last pattern, and
  raises when no pattern matches.
*/
module LegacyExpectations {
  import opened Wrappers
  import opened Patterns
  import Expectations

  /** (VERB VBZ | VERB VBD): the last pattern, without the VBP alternative of the current extractor. */
  const LegacyFiniteVerb: Slot := AnyOf([map[Pos := "VERB", Tag := "VBZ"], map[Pos := "VERB", Tag := "VBD"]])
  const LegacyBareFiniteVerb: seq<Slot> := [LegacyFiniteVerb]

  /** The subject must be tagged PROPN / NNP. */
  predicate ProperSubject(t: Token) {
    t.pos == "PROPN" && t.tag == "NNP"
  }

  /** The pattern that decides an event: 1..5 in the order they are tried, 0 when none matches. */
  function LegacyDecidingPattern(s: seq<Token>): (k: nat)
    ensures k <= 5
  {
    if PosMatches(s, Expectations.AuxNotVerb) then 1
    else if PosMatches(s, Expectations.AuxVerb) then 2
    else if PosMatches(s, Expectations.AuxNot) then 3
    else if PosMatches(s, Expectations.AuxOnly) then 4
    else if PosMatches(s, LegacyBareFiniteVerb) then 5
    else 0
  }

  /**
    `extract_expectations` of the first extractor on an already tagged
    event: IndexError on an empty event and wherever a generator reads past
    the end, the generic Exception for a subject that is not a proper noun
    and for an event no pattern matches.
  */
  function ExtractExpectations(s: seq<Token>, useAntonyms: bool, table: Expectations.AntonymTable, inflect: Expectations.Inflector): Result<seq<string>> {
    if s == [] then Err(IndexOutOfRange)
    else if !ProperSubject(s[0]) then Err(UnableToExtract)
    else
      match LegacyDecidingPattern(s)
      case 1 => if |s| < 4 then Err(IndexOutOfRange) else Ok(Expectations.MatchAuxNotVerb(s, useAntonyms, table, inflect))
      case 2 => if |s| < 3 then Err(IndexOutOfRange) else Ok(Expectations.MatchAuxVerb(s, useAntonyms, table, inflect))
      case 3 => if |s| < 2 then Err(IndexOutOfRange) else Ok(Expectations.MatchAuxNot(s))
      case 4 => if |s| < 2 then Err(IndexOutOfRange) else Ok(Expectations.MatchAuxNot2(s))
      case 5 => if |s| < 2 then Err(IndexOutOfRange) else Ok(Expectations.MatchVerb(s, useAntonyms, table, inflect))
      case _ => Err(UnableToExtract)
  }

  /** Every alternative of the legacy last slot is an alternative of the current one. */
  lemma LegacyFiniteVerbIsFinite(t: Token)
    requires SlotMatches(LegacyFiniteVerb, t)
    ensures SlotMatches(Expectations.FiniteVerb, t)
  {
    var j :| 0 <= j < 2 && AltMatches(Alternatives(LegacyFiniteVerb)[j], t);
    assert AltMatches(Alternatives(Expectations.FiniteVerb)[j], t);
  }

  /** The legacy cascade decides as the current one does, except that a VBP verb is decided by neither pattern 5. */
  lemma {:induction false} SameDecision(s: seq<Token>)
    ensures LegacyDecidingPattern(s) != 0 ==> LegacyDecidingPattern(s) == Expectations.DecidingPattern(s)
    ensures Expectations.DecidingPattern(s) != 5 ==> LegacyDecidingPattern(s) == Expectations.DecidingPattern(s)
  {
    if LegacyDecidingPattern(s) == 5 {
      if |s| >= 2 {
        assert Checked(s, LegacyBareFiniteVerb) == 1 == Checked(s, Expectations.BareFiniteVerb);
        assert SlotMatches(LegacyBareFiniteVerb[0], s[0 + 1]);
        LegacyFiniteVerbIsFinite(s[1]);
        assert SlotMatches(Expectations.BareFiniteVerb[0], s[0 + 1]);
      }
    }
    if Expectations.DecidingPattern(s) == 0 && |s| >= 2 {
      assert Checked(s, LegacyBareFiniteVerb) == 1 == Checked(s, Expectations.BareFiniteVerb);
      if SlotMatches(LegacyBareFiniteVerb[0], s[0 + 1]) {
        LegacyFiniteVerbIsFinite(s[1]);
        assert SlotMatches(Expectations.BareFiniteVerb[0], s[0 + 1]);
      }
    }
  }

  /**
    The first extractor raises IndexError on an empty event or a short
    event the first pattern decides, and its generic Exception exactly for a
    subject other than a proper noun or an event no pattern matches.
  */
  lemma {:induction false} LegacyErrors(s: seq<Token>, useAntonyms: bool, table: Expectations.AntonymTable, inflect: Expectations.Inflector)
    ensures ExtractExpectations(s, useAntonyms, table, inflect) == Err(IndexOutOfRange)
        <==> s == [] || (ProperSubject(s[0]) && LegacyDecidingPattern(s) == 1 && |s| < 4)
    ensures ExtractExpectations(s, useAntonyms, table, inflect) == Err(UnableToExtract)
        <==> s != [] && (!ProperSubject(s[0]) || LegacyDecidingPattern(s) == 0)
  {
    SameDecision(s);
    Expectations.DecidedSentenceLength(s);
  }

  /**
    For the same tagged event, inflector and antonym table, wherever the
    first extractor returns, the current extractor returns the same
    expectations. (The two scripts load different resources: an unstripped
    `antonyms.txt` table and pyinflect in the first, a stripped `antonyms.tsv`
    table and lemminflect in the current one.)
  */
  lemma {:induction false} CurrentExtends(s: seq<Token>, useAntonyms: bool, table: Expectations.AntonymTable, inflect: Expectations.Inflector)
    requires ExtractExpectations(s, useAntonyms, table, inflect).Ok?
    ensures Expectations.ExtractExpectations(s, useAntonyms, table, inflect) == ExtractExpectations(s, useAntonyms, table, inflect)
  {
    SameDecision(s);
  }

  /** A proper-noun event whose finite verb is tagged VBP is rejected by the first extractor and negated by the current one. */
  lemma {:induction false} PluralPresentOnlyCurrent(s: seq<Token>, useAntonyms: bool, table: Expectations.AntonymTable, inflect: Expectations.Inflector)
    requires s != [] && ProperSubject(s[0])
    requires Expectations.DecidingPattern(s) == 5 && |s| >= 2 && s[1].tag == "VBP"
    ensures ExtractExpectations(s, useAntonyms, table, inflect) == Err(UnableToExtract)
    ensures Expectations.ExtractExpectations(s, useAntonyms, table, inflect).Ok?
    ensures Expectations.ExtractExpectations(s, useAntonyms, table, inflect).value != []
  {
    SameDecision(s);
    assert Checked(s, LegacyBareFiniteVerb) == 1;
    assert !SlotMatches(LegacyBareFiniteVerb[0], s[0 + 1]) by {
      assert Tag in Alternatives(LegacyFiniteVerb)[0] && Tag in Alternatives(LegacyFiniteVerb)[1];
    }
  }
}
