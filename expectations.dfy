/**
  The current expectation extractor: five token patterns tried in a fixed
  order against tokens 1.. of a tagged event; the first that matches runs one
  generator, which assembles expectation sentences from the subject, the
  auxiliary, the verb's lemma and the remaining tokens.
*/
module Expectations {
  import opened Wrappers
  import opened Text
  import opened Patterns

  /** The morphological inflector: the first form of `lemma` for a fine tag, if it has one. */
  type Inflector = (string, string) -> Option<string>

  type AntonymTable = map<string, string>

  // The slots of the five patterns.
  const AuxPresentOrPast: Slot := AnyOf([map[Pos := "AUX", Tag := "VBZ"], map[Pos := "AUX", Tag := "VBD"]])
  const Negation: Slot := AnyOf([map[Text := "not"], map[Text := "n't"]])
  const BareVerb: Slot := One(map[Pos := "VERB", Tag := "VB"])
  const IsOrWas: Slot := AnyOf([map[Text := "is", Pos := "AUX", Tag := "VBZ"], map[Text := "was", Pos := "AUX", Tag := "VBD"]])
  const FiniteVerb: Slot := AnyOf([map[Pos := "VERB", Tag := "VBZ"], map[Pos := "VERB", Tag := "VBD"], map[Pos := "VERB", Tag := "VBP"]])

  /** (AUX VBZ | AUX VBD) (not | n't) (VERB VB), e.g. "Ben does not win marathons". */
  const AuxNotVerb: seq<Slot> := [AuxPresentOrPast, Negation, BareVerb]
  /** (AUX VBZ | AUX VBD) (VERB VB), e.g. "Ben does win marathons". */
  const AuxVerb: seq<Slot> := [AuxPresentOrPast, BareVerb]
  /** (is AUX VBZ | was AUX VBD) (not | n't), e.g. "Ben is not winning marathons". */
  const AuxNot: seq<Slot> := [IsOrWas, Negation]
  /** (is AUX VBZ | was AUX VBD), e.g. "Ben is winning marathons". */
  const AuxOnly: seq<Slot> := [IsOrWas]
  /** (VERB VBZ | VERB VBD | VERB VBP), e.g. "Ben wins marathons". */
  const BareFiniteVerb: seq<Slot> := [FiniteVerb]

  /** `[w.text for w in tokens]`. */
  function Texts(tokens: seq<Token>): (r: seq<string>)
    ensures |r| == |tokens|
    ensures forall i :: 0 <= i < |tokens| ==> r[i] == tokens[i].text
  {
    if tokens == [] then [] else [tokens[0].text] + Texts(tokens[1..])
  }

  /** Python slicing `tokens[k:]`, which is empty when `k` is past the end. */
  function From(tokens: seq<Token>, k: nat): seq<Token> {
    if k <= |tokens| then tokens[k..] else []
  }

  /** `' '.join(toks)`. */
  function Sentence(toks: seq<string>): string {
    Join(" ", toks)
  }

  /** `_match_aux_not_verb`: inflected verb (if any), affirmative with the auxiliary, negated antonym (if any). */
  function MatchAuxNotVerb(s: seq<Token>, useAntonyms: bool, table: AntonymTable, inflect: Inflector): seq<string>
    requires |s| >= 4
  {
    var subj, aux, verb, rest := s[0], s[1], s[3], Texts(s[4..]);
    (match inflect(verb.lemmaForm, aux.tag)
     case Some(form) => [Sentence([subj.text, form] + rest)]
     case None => [])
    + [Sentence([subj.text, aux.text, verb.lemmaForm] + rest)]
    + (if useAntonyms && verb.lemmaForm in table
       then [Sentence([subj.text, aux.text, "not", table[verb.lemmaForm]] + rest)]
       else [])
  }

  /** `_match_aux_verb`: negation inserted; with an antonym also the antonym after the auxiliary and its inflection. */
  function MatchAuxVerb(s: seq<Token>, useAntonyms: bool, table: AntonymTable, inflect: Inflector): seq<string>
    requires |s| >= 3
  {
    var subj, aux, verb, rest := s[0], s[1], s[2], Texts(s[3..]);
    [Sentence([subj.text, aux.text, "not", verb.lemmaForm] + rest)]
    + (if useAntonyms && verb.lemmaForm in table then
         var ant := table[verb.lemmaForm];
         [Sentence([subj.text, aux.text, ant] + rest)]
         + (match inflect(ant, aux.tag)
            case Some(form) => [Sentence([subj.text, form] + rest)]
            case None => [])
       else [])
  }

  /** `_match_aux_not`: the negation token (token 2) dropped. */
  function MatchAuxNot(s: seq<Token>): seq<string>
    requires |s| >= 2
  {
    [Sentence([s[0].text, s[1].text] + Texts(From(s, 3)))]
  }

  /** `_match_aux_not_2`: `not` inserted after the auxiliary. */
  function MatchAuxNot2(s: seq<Token>): seq<string>
    requires |s| >= 2
  {
    [Sentence([s[0].text, s[1].text, "not"] + Texts(s[2..]))]
  }

  /** The auxiliary `_match_verb` supplies: `does` for VBZ, `did` for every other tag. */
  function SupportAux(tag: string): string {
    if tag == "VBZ" then "does" else "did"
  }

  /** `_match_verb`: `does`/`did` + `not` + lemma; with an antonym that inflects, the inflected antonym. */
  function MatchVerb(s: seq<Token>, useAntonyms: bool, table: AntonymTable, inflect: Inflector): seq<string>
    requires |s| >= 2
  {
    var subj, verb, rest := s[0], s[1], Texts(s[2..]);
    [Sentence([subj.text, SupportAux(verb.tag), "not", verb.lemmaForm] + rest)]
    + (if useAntonyms && verb.lemmaForm in table then
         match inflect(table[verb.lemmaForm], verb.tag)
         case Some(form) => [Sentence([subj.text, form] + rest)]
         case None => []
       else [])
  }

  /**
    `extract_expectations` on an already tagged event. The first pattern
    that matches decides; when none does the result is empty. Indexing past
    the end of the sentence raises IndexError, as in Python.
  */
  function ExtractExpectations(s: seq<Token>, useAntonyms: bool, table: AntonymTable, inflect: Inflector): Result<seq<string>> {
    match DecidingPattern(s)
    case 1 => if |s| < 4 then Err(IndexOutOfRange) else Ok(MatchAuxNotVerb(s, useAntonyms, table, inflect))
    case 2 => if |s| < 3 then Err(IndexOutOfRange) else Ok(MatchAuxVerb(s, useAntonyms, table, inflect))
    case 3 => if |s| < 2 then Err(IndexOutOfRange) else Ok(MatchAuxNot(s))
    case 4 => if |s| < 2 then Err(IndexOutOfRange) else Ok(MatchAuxNot2(s))
    case 5 => if |s| < 2 then Err(IndexOutOfRange) else Ok(MatchVerb(s, useAntonyms, table, inflect))
    case _ => Ok([])
  }

  /** The pattern that decides an event: 1..5 in the order they are tried, 0 when none matches. */
  function DecidingPattern(s: seq<Token>): (k: nat)
    ensures k <= 5
  {
    if PosMatches(s, AuxNotVerb) then 1
    else if PosMatches(s, AuxVerb) then 2
    else if PosMatches(s, AuxNot) then 3
    else if PosMatches(s, AuxOnly) then 4
    else if PosMatches(s, BareFiniteVerb) then 5
    else 0
  }

  /** On a two-token sentence only slot 0 is checked, so two patterns sharing it agree. */
  lemma SameFirstSlot(s: seq<Token>, p: seq<Slot>, q: seq<Slot>)
    requires |s| == 2 && p != [] && q != [] && p[0] == q[0]
    ensures PosMatches(s, p) == PosMatches(s, q)
  {
    assert Checked(s, p) == 1 == Checked(s, q);
  }

  /** Every alternative of `is`/`was` is also an alternative of the auxiliary slot. */
  lemma IsOrWasIsAux(t: Token)
    requires SlotMatches(IsOrWas, t)
    ensures SlotMatches(AuxPresentOrPast, t)
  {
    var j :| 0 <= j < 2 && AltMatches(Alternatives(IsOrWas)[j], t);
    assert AttrOf(t, Pos) == "AUX";
    assert AltMatches(Alternatives(AuxPresentOrPast)[j], t);
  }

  /** Patterns 2..5 only decide sentences long enough for their generator. */
  lemma DecidedSentenceLength(s: seq<Token>)
    ensures DecidingPattern(s) == 2 ==> |s| >= 3
    ensures DecidingPattern(s) == 3 ==> |s| >= 3
    ensures DecidingPattern(s) >= 2 || DecidingPattern(s) == 0 ==> |s| >= 2
  {
    if |s| <= 1 {
      ShortSentenceMatchesAnything(s, AuxNotVerb);
    } else if |s| == 2 {
      SameFirstSlot(s, AuxNotVerb, AuxVerb);
      if PosMatches(s, AuxNot) {
        assert Checked(s, AuxNot) == 1 && AuxNot[0] == IsOrWas;
        assert SlotMatches(AuxNot[0], s[0 + 1]);
        IsOrWasIsAux(s[1]);
      }
    }
  }

  /**
    The extractor raises exactly when the first pattern decides a sentence
    shorter than the four tokens its generator reads: `zip` stops at the
    shorter list, so a sentence of up to three tokens is matched on a
    prefix of the pattern only.
  */
  lemma {:induction false} RaisesIffShortAuxNotVerb(s: seq<Token>, useAntonyms: bool, table: AntonymTable, inflect: Inflector)
    ensures ExtractExpectations(s, useAntonyms, table, inflect).Err?
        <==> PosMatches(s, AuxNotVerb) && |s| < 4
  {
    DecidedSentenceLength(s);
  }

  /** Generators never return an empty list. */
  lemma {:induction false} NoExpectationsIffNoPattern(s: seq<Token>, useAntonyms: bool, table: AntonymTable, inflect: Inflector)
    ensures ExtractExpectations(s, useAntonyms, table, inflect) == Ok([]) <==> DecidingPattern(s) == 0
  {
    DecidedSentenceLength(s);
  }

  /** Every string in `es` begins with `p`. */
  predicate AllStartWith(es: seq<string>, p: string) {
    forall i :: 0 <= i < |es| ==> StartsWith(es[i], p)
  }

  lemma AllStartWithConcat(a: seq<string>, b: seq<string>, p: string)
    requires AllStartWith(a, p) && AllStartWith(b, p)
    ensures AllStartWith(a + b, p)
  {
  }

  lemma SentencesStartWithFirst()
    ensures forall xs: seq<string> | xs != [] :: AllStartWith([Sentence(xs)], xs[0])
  {
    forall xs: seq<string> | xs != [] ensures AllStartWith([Sentence(xs)], xs[0]) {
      JoinStartsWithFirst(" ", xs);
    }
  }

  lemma AuxNotVerbStartsWithSubject(s: seq<Token>, useAntonyms: bool, table: AntonymTable, inflect: Inflector)
    requires |s| >= 4
    ensures AllStartWith(MatchAuxNotVerb(s, useAntonyms, table, inflect), s[0].text)
  {
    SentencesStartWithFirst();
  }

  lemma AuxVerbStartsWithSubject(s: seq<Token>, useAntonyms: bool, table: AntonymTable, inflect: Inflector)
    requires |s| >= 3
    ensures AllStartWith(MatchAuxVerb(s, useAntonyms, table, inflect), s[0].text)
  {
    SentencesStartWithFirst();
  }

  lemma VerbStartsWithSubject(s: seq<Token>, useAntonyms: bool, table: AntonymTable, inflect: Inflector)
    requires |s| >= 2
    ensures AllStartWith(MatchVerb(s, useAntonyms, table, inflect), s[0].text)
  {
    SentencesStartWithFirst();
  }

  /** Every expectation repeats the event's subject as its first word. */
  lemma {:induction false} ExpectationsStartWithSubject(s: seq<Token>, useAntonyms: bool, table: AntonymTable, inflect: Inflector)
    requires ExtractExpectations(s, useAntonyms, table, inflect).Ok?
    ensures forall e | e in ExtractExpectations(s, useAntonyms, table, inflect).value :: s != [] && StartsWith(e, s[0].text)
  {
    var r := ExtractExpectations(s, useAntonyms, table, inflect).value;
    DecidedSentenceLength(s);
    match DecidingPattern(s)
    case 1 => AuxNotVerbStartsWithSubject(s, useAntonyms, table, inflect);
    case 2 => AuxVerbStartsWithSubject(s, useAntonyms, table, inflect);
    case 3 => SentencesStartWithFirst();
    case 4 => SentencesStartWithFirst();
    case 5 => VerbStartsWithSubject(s, useAntonyms, table, inflect);
    case _ =>
    assert AllStartWith(r, if s == [] then "" else s[0].text);
  }

  /**
    The first pattern: the inflected verb first when the inflector has a
    form, then always the affirmative with the auxiliary, then the negated
    antonym only with antonyms on and an entry for the lemma.
  */
  lemma AuxNotVerbExpectations(s: seq<Token>, useAntonyms: bool, table: AntonymTable, inflect: Inflector)
    requires DecidingPattern(s) == 1 && |s| >= 4
    ensures var r := ExtractExpectations(s, useAntonyms, table, inflect);
      var inflected := inflect(s[3].lemmaForm, s[1].tag).Some?;
      var antonym := useAntonyms && s[3].lemmaForm in table;
      && r.Ok?
      && |r.value| == (if inflected then 1 else 0) + 1 + (if antonym then 1 else 0)
      && (inflected ==> r.value[0] == Sentence([s[0].text, inflect(s[3].lemmaForm, s[1].tag).value] + Texts(s[4..])))
      && r.value[if inflected then 1 else 0] == Sentence([s[0].text, s[1].text, s[3].lemmaForm] + Texts(s[4..]))
      && (antonym ==> r.value[|r.value| - 1] == Sentence([s[0].text, s[1].text, "not", table[s[3].lemmaForm]] + Texts(s[4..])))
  {
  }

  /**
    The second pattern: the negation always comes first; the antonym forms
    follow only with antonyms on and an entry for the lemma, so without
    antonyms there is exactly one expectation.
  */
  lemma {:induction false} AuxVerbExpectations(s: seq<Token>, useAntonyms: bool, table: AntonymTable, inflect: Inflector)
    requires DecidingPattern(s) == 2
    ensures |s| >= 3
    ensures var r := ExtractExpectations(s, useAntonyms, table, inflect);
      && r.Ok? && 1 <= |r.value| <= 3
      && r.value[0] == Sentence([s[0].text, s[1].text, "not", s[2].lemmaForm] + Texts(s[3..]))
      && (|r.value| > 1 <==> useAntonyms && s[2].lemmaForm in table)
  {
    AuxVerbDecided(s);
  }

  /** The `is`/`was` patterns emit exactly one expectation, whatever the antonym settings and the inflector. */
  lemma {:induction false} BeExpectations(s: seq<Token>, useAntonyms: bool, table: AntonymTable, inflect: Inflector, table': AntonymTable, inflect': Inflector)
    requires DecidingPattern(s) == 3 || DecidingPattern(s) == 4
    ensures |s| >= 2 && (DecidingPattern(s) == 3 ==> |s| >= 3)
    ensures var r := ExtractExpectations(s, useAntonyms, table, inflect);
      && r.Ok? && |r.value| == 1
      && r == ExtractExpectations(s, !useAntonyms, table', inflect')
      && (DecidingPattern(s) == 3 ==> r.value[0] == Sentence([s[0].text, s[1].text] + Texts(s[3..])))
      && (DecidingPattern(s) == 4 ==> r.value[0] == Sentence([s[0].text, s[1].text, "not"] + Texts(s[2..])))
  {
    DecidedSentenceLength(s);
    if DecidingPattern(s) == 3 {
      assert From(s, 3) == s[3..];
    }
  }

  /**
    The fifth pattern: `does` for a VBZ verb and `did` for every other tag,
    VBP included; the inflected antonym follows only with antonyms on, an
    entry for the lemma and a form from the inflector.
  */
  lemma {:induction false} VerbExpectations(s: seq<Token>, useAntonyms: bool, table: AntonymTable, inflect: Inflector)
    requires DecidingPattern(s) == 5
    ensures |s| >= 2
    ensures var r := ExtractExpectations(s, useAntonyms, table, inflect);
      && r.Ok? && 1 <= |r.value| <= 2
      && r.value[0] == Sentence([s[0].text, if s[1].tag == "VBZ" then "does" else "did", "not", s[1].lemmaForm] + Texts(s[2..]))
      && (|r.value| == 2 <==> useAntonyms && s[1].lemmaForm in table && inflect(table[s[1].lemmaForm], s[1].tag).Some?)
  {
    DecidedSentenceLength(s);
  }

  // Tokens as a tagger reads the words the generators insert.

  /** `not` as an adverbial particle. */
  const NotToken: Token := Token("not", "not", "PART", "RB")

  /** The supporting `does`/`did` inserted for a verb of tag `tag`. */
  function SupportToken(tag: string): Token {
    Token(SupportAux(tag), "do", "AUX", tag)
  }

  /** A verb in its bare form. */
  function BareToken(lemmaForm: string): Token {
    Token(lemmaForm, lemmaForm, "VERB", "VB")
  }

  /** The event with `not` inserted after the auxiliary (token 1). */
  function Negated(s: seq<Token>): seq<Token>
    requires |s| >= 2
  {
    s[..2] + [NotToken] + s[2..]
  }

  /** The event with the finite verb (token 1) replaced by `does`/`did` + `not` + the bare verb. */
  function Periphrastic(s: seq<Token>): seq<Token>
    requires |s| >= 2
  {
    [s[0], SupportToken(s[1].tag), NotToken, BareToken(s[1].lemmaForm)] + s[2..]
  }

  lemma NotTokenSlots()
    ensures SlotMatches(Negation, NotToken)
    ensures !SlotMatches(BareVerb, NotToken)
  {
    assert AltMatches(Alternatives(Negation)[0], NotToken);
    assert !AltMatches(Alternatives(BareVerb)[0], NotToken) by {
      assert Pos in Alternatives(BareVerb)[0];
    }
  }

  lemma BareTokenSlot(w: string)
    ensures SlotMatches(BareVerb, BareToken(w))
  {
    assert AltMatches(Alternatives(BareVerb)[0], BareToken(w));
  }

  lemma SupportTokenSlot(tag: string)
    requires tag == "VBZ" || tag == "VBD"
    ensures SlotMatches(AuxPresentOrPast, SupportToken(tag))
  {
    var j := if tag == "VBZ" then 0 else 1;
    assert AltMatches(Alternatives(AuxPresentOrPast)[j], SupportToken(tag));
  }

  lemma {:induction false} TextsConcat(a: seq<Token>, b: seq<Token>)
    ensures Texts(a + b) == Texts(a) + Texts(b)
  {
    if a == [] {
      assert a + b == b;
    } else {
      assert (a + b)[1..] == a[1..] + b;
      TextsConcat(a[1..], b);
    }
  }

  lemma TextsSplit(s: seq<Token>, k: nat)
    requires k <= |s|
    ensures Texts(s) == Texts(s[..k]) + Texts(s[k..])
  {
    assert s == s[..k] + s[k..];
    TextsConcat(s[..k], s[k..]);
  }

  lemma NegatedTexts(s: seq<Token>)
    requires |s| >= 2
    ensures Texts(Negated(s)) == [s[0].text, s[1].text, "not"] + Texts(s[2..])
  {
    var n := Negated(s);
    TextsSplit(n, 3);
    assert n[..3] == [s[0], s[1], NotToken];
    assert n[3..] == s[2..];
    assert Texts([s[0], s[1], NotToken]) == [s[0].text, s[1].text, NotToken.text];
  }

  /** An event the fourth pattern decides has an `is`/`was` auxiliary followed by something other than a bare verb. */
  lemma AuxOnlyDecided(s: seq<Token>)
    requires DecidingPattern(s) == 4
    ensures |s| >= 3
    ensures SlotMatches(IsOrWas, s[1]) && SlotMatches(AuxPresentOrPast, s[1])
    ensures !SlotMatches(BareVerb, s[2])
  {
    DecidedSentenceLength(s);
    AuxOnlyMatch(s);
    IsOrWasIsAux(s[1]);
    AuxVerbMismatch(s);
  }

  lemma AuxOnlyMatch(s: seq<Token>)
    requires |s| >= 2 && PosMatches(s, AuxOnly)
    ensures SlotMatches(IsOrWas, s[1])
  {
    assert Checked(s, AuxOnly) == 1;
    assert SlotMatches(AuxOnly[0], s[0 + 1]);
  }

  /** When the second pattern's auxiliary slot matches but the pattern does not, a third token exists and is no bare verb. */
  lemma AuxVerbMismatch(s: seq<Token>)
    requires |s| >= 2 && SlotMatches(AuxPresentOrPast, s[1]) && !PosMatches(s, AuxVerb)
    ensures |s| >= 3 && !SlotMatches(BareVerb, s[2])
  {
    assert SlotMatches(AuxVerb[0], s[0 + 1]);
    if |s| >= 3 {
      assert Checked(s, AuxVerb) == 2;
    }
  }

  /** With `not` inserted after `is`/`was`, the third pattern decides. */
  lemma NegatedAuxOnlyDecided(s: seq<Token>)
    requires |s| >= 3
    requires SlotMatches(IsOrWas, s[1]) && SlotMatches(AuxPresentOrPast, s[1])
    requires !SlotMatches(BareVerb, s[2])
    ensures DecidingPattern(Negated(s)) == 3
  {
    var n := Negated(s);
    assert n[1] == s[1] && n[2] == NotToken && n[3] == s[2];
    NotTokenSlots();
    assert Checked(n, AuxNotVerb) == 3 && !SlotMatches(AuxNotVerb[2], n[2 + 1]);
    assert Checked(n, AuxVerb) == 2 && !SlotMatches(AuxVerb[1], n[1 + 1]);
    assert Checked(n, AuxNot) == 2 && SlotMatches(AuxNot[0], n[0 + 1]) && SlotMatches(AuxNot[1], n[1 + 1]);
  }

  /**
    Negating an `is`/`was` event and reading the result back undoes the
    negation: the fourth pattern inserts `not`, and on the negated event the
    third pattern removes it again.
  */
  lemma {:induction false} BeNegationRoundTrip(s: seq<Token>, useAntonyms: bool, table: AntonymTable, inflect: Inflector)
    requires DecidingPattern(s) == 4
    ensures |s| >= 3
    ensures ExtractExpectations(s, useAntonyms, table, inflect) == Ok([Sentence(Texts(Negated(s)))])
    ensures ExtractExpectations(Negated(s), useAntonyms, table, inflect) == Ok([Sentence(Texts(s))])
  {
    AuxOnlyDecided(s);
    NegatedAuxOnlyDecided(s);
    assert Texts(s) == [s[0].text, s[1].text] + Texts(s[2..]);
    NegatedTexts(s);
    var n := Negated(s);
    assert From(n, 3) == s[2..];
  }

  /** An event the second pattern decides has an auxiliary followed by a bare verb. */
  lemma AuxVerbDecided(s: seq<Token>)
    requires DecidingPattern(s) == 2
    ensures |s| >= 3
    ensures SlotMatches(AuxPresentOrPast, s[1]) && SlotMatches(BareVerb, s[2])
  {
    DecidedSentenceLength(s);
    assert Checked(s, AuxVerb) == 2;
    assert SlotMatches(AuxVerb[0], s[0 + 1]) && SlotMatches(AuxVerb[1], s[1 + 1]);
  }

  /** With `not` inserted between the auxiliary and the bare verb, the first pattern decides. */
  lemma NegatedAuxVerbDecided(s: seq<Token>)
    requires |s| >= 3
    requires SlotMatches(AuxPresentOrPast, s[1]) && SlotMatches(BareVerb, s[2])
    ensures DecidingPattern(Negated(s)) == 1
  {
    var n := Negated(s);
    assert n[1] == s[1] && n[2] == NotToken && n[3] == s[2];
    NotTokenSlots();
    assert Checked(n, AuxNotVerb) == 3;
    assert SlotMatches(AuxNotVerb[0], n[0 + 1]) && SlotMatches(AuxNotVerb[1], n[1 + 1]) && SlotMatches(AuxNotVerb[2], n[2 + 1]);
  }

  lemma AuxVerbTexts(s: seq<Token>)
    requires |s| >= 3
    ensures Texts(s) == [s[0].text, s[1].text, s[2].text] + Texts(s[3..])
  {
    TextsSplit(s, 3);
    assert s[..3] == [s[0], s[1], s[2]];
    assert Texts([s[0], s[1], s[2]]) == [s[0].text, s[1].text, s[2].text];
  }

  lemma NegatedAuxVerbTexts(s: seq<Token>)
    requires |s| >= 3
    ensures Negated(s)[4..] == s[3..]
    ensures Texts(Negated(s)) == [s[0].text, s[1].text, "not", s[2].text] + Texts(s[3..])
  {
    var n := Negated(s);
    TextsSplit(n, 4);
    assert n[..4] == [s[0], s[1], NotToken, s[2]];
    assert Texts([s[0], s[1], NotToken, s[2]]) == [s[0].text, s[1].text, NotToken.text, s[2].text];
  }

  /**
    Without antonyms, negating an auxiliary + bare verb event and reading
    the result back recovers the event: the second pattern inserts `not`,
    and on the negated event the first pattern's affirmative drops it again
    (after the inflected form, when the inflector has one).
  */
  lemma {:induction false} AuxNegationRoundTrip(s: seq<Token>, table: AntonymTable, inflect: Inflector)
    requires DecidingPattern(s) == 2 && |s| >= 3 && s[2].text == s[2].lemmaForm
    ensures ExtractExpectations(s, false, table, inflect) == Ok([Sentence(Texts(Negated(s)))])
    ensures var r := ExtractExpectations(Negated(s), false, table, inflect);
      && r.Ok? && 1 <= |r.value| <= 2
      && r.value[|r.value| - 1] == Sentence(Texts(s))
      && (inflect(s[2].lemmaForm, s[1].tag).None? ==> r.value == [Sentence(Texts(s))])
  {
    AuxVerbDecided(s);
    NegatedAuxVerbDecided(s);
    var n := Negated(s);
    assert MatchAuxVerb(s, false, table, inflect) == [Sentence(Texts(n))] by {
      NegatedAuxVerbTexts(s);
    }
    var affirm := Sentence([s[0].text, s[1].text, s[2].lemmaForm] + Texts(s[3..]));
    assert affirm == Sentence(Texts(s)) by {
      AuxVerbTexts(s);
    }
    var inflected := match inflect(s[2].lemmaForm, s[1].tag)
      case Some(form) => [Sentence([s[0].text, form] + Texts(s[3..]))]
      case None => [];
    assert MatchAuxNotVerb(n, false, table, inflect) == inflected + [affirm] by {
      assert n[1] == s[1] && n[3] == s[2] && n[4..] == s[3..];
    }
  }

  /** The finite verb's tag is one the supporting `does`/`did` can carry. */
  predicate PresentOrPast(t: Token) {
    t.tag == "VBZ" || t.tag == "VBD"
  }

  lemma PeriphrasticDecided(s: seq<Token>)
    requires |s| >= 2 && PresentOrPast(s[1])
    ensures DecidingPattern(Periphrastic(s)) == 1
  {
    var n := Periphrastic(s);
    NotTokenSlots();
    SupportTokenSlot(s[1].tag);
    BareTokenSlot(s[1].lemmaForm);
    assert Checked(n, AuxNotVerb) == 3;
    assert SlotMatches(AuxNotVerb[0], n[0 + 1]) && SlotMatches(AuxNotVerb[1], n[1 + 1]) && SlotMatches(AuxNotVerb[2], n[2 + 1]);
  }

  lemma PeriphrasticTexts(s: seq<Token>)
    requires |s| >= 2
    ensures Texts(Periphrastic(s)) == [s[0].text, SupportAux(s[1].tag), "not", s[1].lemmaForm] + Texts(s[2..])
    ensures Periphrastic(s)[4..] == s[2..]
  {
    var n := Periphrastic(s);
    var a, b := SupportToken(s[1].tag), BareToken(s[1].lemmaForm);
    TextsSplit(n, 4);
    assert n[..4] == [s[0], a, NotToken, b];
    assert n[4..] == s[2..];
    assert Texts([s[0], a, NotToken, b]) == [s[0].text, a.text, NotToken.text, b.text];
  }

  /**
    Without antonyms, a present or past finite verb is negated with
    `does`/`did`, and when the inflector maps the verb's lemma and tag back
    to its surface form, reading the negation back puts the original event
    first among its expectations.
  */
  lemma {:induction false} VerbNegationRoundTrip(s: seq<Token>, table: AntonymTable, inflect: Inflector)
    requires DecidingPattern(s) == 5 && |s| >= 2 && PresentOrPast(s[1])
    requires inflect(s[1].lemmaForm, s[1].tag) == Some(s[1].text)
    ensures ExtractExpectations(s, false, table, inflect) == Ok([Sentence(Texts(Periphrastic(s)))])
    ensures ExtractExpectations(Periphrastic(s), false, table, inflect)
      == Ok([Sentence(Texts(s)), Sentence([s[0].text, SupportAux(s[1].tag), s[1].lemmaForm] + Texts(s[2..]))])
  {
    PeriphrasticDecided(s);
    assert Texts(s) == [s[0].text, s[1].text] + Texts(s[2..]);
    PeriphrasticTexts(s);
    var n := Periphrastic(s);
    var rest := Texts(s[2..]);
    assert MatchVerb(s, false, table, inflect) == [Sentence(Texts(n))];
    assert n[1] == SupportToken(s[1].tag) && n[3] == BareToken(s[1].lemmaForm);
    assert Texts(n[4..]) == rest;
    assert MatchAuxNotVerb(n, false, table, inflect)
      == [Sentence([s[0].text, s[1].text] + rest), Sentence([s[0].text, SupportAux(s[1].tag), s[1].lemmaForm] + rest)];
  }

  // The short-event crash and its correction.

  /** "Ben did not", tagged. */
  const BenDidNot: seq<Token> := [Token("Ben", "Ben", "PROPN", "NNP"), Token("did", "do", "AUX", "VBD"), NotToken]

  /**
    As written, a three-token event whose auxiliary is followed by a
    negation matches the first pattern on the two slots `zip` pairs up, and
    its generator then reads a fourth token that is not there.
  */
  lemma ShortNegatedEventRaises(useAntonyms: bool, table: AntonymTable, inflect: Inflector)
    ensures ExtractExpectations(BenDidNot, useAntonyms, table, inflect) == Err(IndexOutOfRange)
  {
    var s := BenDidNot;
    assert AltMatches(Alternatives(AuxPresentOrPast)[1], s[1]);
    NotTokenSlots();
    assert Checked(s, AuxNotVerb) == 2;
    assert SlotMatches(AuxNotVerb[0], s[0 + 1]) && SlotMatches(AuxNotVerb[1], s[1 + 1]);
  }

  /** A pattern matches in full: the event has a token after the subject for every slot. */
  predicate FullMatch(s: seq<Token>, pattern: seq<Slot>) {
    |s| > |pattern| && PosMatches(s, pattern)
  }

  /** The cascade with every slot checked. */
  function StrictDecidingPattern(s: seq<Token>): (k: nat)
    ensures k <= 5
    ensures k == 1 ==> |s| >= 4
    ensures k == 2 ==> |s| >= 3
    ensures k >= 3 ==> |s| >= 2
  {
    if FullMatch(s, AuxNotVerb) then 1
    else if FullMatch(s, AuxVerb) then 2
    else if FullMatch(s, AuxNot) then 3
    else if FullMatch(s, AuxOnly) then 4
    else if FullMatch(s, BareFiniteVerb) then 5
    else 0
  }

  /** The extractor with full matches only; it cannot raise. */
  function ExtractExpectationsStrict(s: seq<Token>, useAntonyms: bool, table: AntonymTable, inflect: Inflector): seq<string> {
    match StrictDecidingPattern(s)
    case 1 => MatchAuxNotVerb(s, useAntonyms, table, inflect)
    case 2 => MatchAuxVerb(s, useAntonyms, table, inflect)
    case 3 => MatchAuxNot(s)
    case 4 => MatchAuxNot2(s)
    case 5 => MatchVerb(s, useAntonyms, table, inflect)
    case _ => []
  }

  /** Wherever the extractor as written does not raise, the strict one returns the same expectations. */
  lemma {:induction false} StrictAgreesWhereDefined(s: seq<Token>, useAntonyms: bool, table: AntonymTable, inflect: Inflector)
    requires ExtractExpectations(s, useAntonyms, table, inflect).Ok?
    ensures ExtractExpectationsStrict(s, useAntonyms, table, inflect) == ExtractExpectations(s, useAntonyms, table, inflect).value
  {
    DecidedSentenceLength(s);
    if DecidingPattern(s) == 4 {
      AuxOnlyDecided(s);
    }
    assert StrictDecidingPattern(s) == DecidingPattern(s);
  }

  /** On the event that crashes the extractor as written, the strict one finds no pattern. */
  lemma ShortNegatedEventStrict(useAntonyms: bool, table: AntonymTable, inflect: Inflector)
    ensures ExtractExpectationsStrict(BenDidNot, useAntonyms, table, inflect) == []
  {
    var s := BenDidNot;
    NotTokenSlots();
    assert !SlotMatches(AuxVerb[1], s[1 + 1]);
    assert !SlotMatches(IsOrWas, s[1]) by {
      assert Text in Alternatives(IsOrWas)[0] && Text in Alternatives(IsOrWas)[1];
    }
    assert !SlotMatches(FiniteVerb, s[1]) by {
      assert forall j :: 0 <= j < 3 ==> Pos in Alternatives(FiniteVerb)[j];
    }
    assert Checked(s, AuxVerb) == 2 && Checked(s, AuxNot) == 2;
    assert Checked(s, AuxOnly) == 1 && Checked(s, BareFiniteVerb) == 1;
    assert AuxNot[0] == IsOrWas && AuxOnly[0] == IsOrWas && BareFiniteVerb[0] == FiniteVerb;
    assert !SlotMatches(AuxNot[0], s[0 + 1]) && !SlotMatches(AuxOnly[0], s[0 + 1]);
    assert !SlotMatches(BareFiniteVerb[0], s[0 + 1]);
  }
}
