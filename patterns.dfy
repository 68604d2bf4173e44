/**
  Tagged tokens and the `pos_match` matcher shared by both expectation
  extractors: a pattern is a list of slots, a slot a disjunction of
  alternatives, an alternative a conjunction of attribute constraints.
*/
module Patterns {

  /** One spaCy token: surface text, lemma (`lemma_`, here `lemmaForm`), coarse part of speech (`pos_`), fine tag (`tag_`). */
  datatype Token = Token(text: string, lemmaForm: string, pos: string, tag: string)

  /** The token attributes a pattern may constrain. */
  datatype Attr = Text | Lemma | Pos | Tag

  /** One alternative: attribute -> required value, every entry must hold. */
  type Alt = map<Attr, string>

  /** A slot is either a bare dictionary or a list of alternative dictionaries. */
  datatype Slot = One(alt: Alt) | AnyOf(alts: seq<Alt>)

  function AttrOf(t: Token, a: Attr): string {
    match a
    case Text => t.text
    case Lemma => t.lemmaForm
    case Pos => t.pos
    case Tag => t.tag
  }

  /** `isinstance(word_patterns, list)` normalisation: a bare dictionary is a one-alternative list. */
  function Alternatives(slot: Slot): seq<Alt> {
    match slot
    case One(alt) => [alt]
    case AnyOf(alts) => alts
  }

  predicate AltMatches(alt: Alt, t: Token) {
    forall a | a in alt :: AttrOf(t, a) == alt[a]
  }

  /** Specification of a slot: some alternative has every key equal to the token's attribute. */
  predicate SlotMatches(slot: Slot, t: Token) {
    exists j :: 0 <= j < |Alternatives(slot)| && AltMatches(Alternatives(slot)[j], t)
  }

  /** The number of (token, slot) pairs `zip(sentence[1:], pattern)` produces. */
  function Checked(sentence: seq<Token>, pattern: seq<Slot>): (n: nat)
    ensures n <= |pattern| && n + 1 <= |sentence| + (if sentence == [] then 1 else 0)
  {
    if |sentence| <= 1 then 0
    else if |pattern| < |sentence| - 1 then |pattern| else |sentence| - 1
  }

  /** Specification of `pos_match`: slot i constrains token i+1, for the zipped prefix only. */
  predicate PosMatches(sentence: seq<Token>, pattern: seq<Slot>) {
    forall i :: 0 <= i < Checked(sentence, pattern) ==> SlotMatches(pattern[i], sentence[i + 1])
  }

  /** `pos_match`: loops over the zipped pairs with a flag per slot and returns early on a failed slot. */
  method PosMatch(sentence: seq<Token>, pattern: seq<Slot>) returns (matched: bool)
    ensures matched == PosMatches(sentence, pattern)
  {
    var n := Checked(sentence, pattern);
    var i := 0;
    while i < n
      invariant 0 <= i <= n
      invariant forall k :: 0 <= k < i ==> SlotMatches(pattern[k], sentence[k + 1])
    {
      var word := sentence[i + 1];
      var wordPatterns := Alternatives(pattern[i]);
      var oneMatches := false;
      var j := 0;
      while j < |wordPatterns|
        invariant 0 <= j <= |wordPatterns|
        invariant oneMatches <==> exists k :: 0 <= k < j && AltMatches(wordPatterns[k], word)
      {
        if AltMatches(wordPatterns[j], word) {
          oneMatches := true;
        }
        j := j + 1;
      }
      if !oneMatches {
        return false;
      }
      i := i + 1;
    }
    return true;
  }

  /** A bare dictionary slot behaves exactly like a list holding that one dictionary. */
  lemma SingleSlotIsOneAlternative(alt: Alt, t: Token)
    ensures SlotMatches(One(alt), t) == SlotMatches(AnyOf([alt]), t)
    ensures SlotMatches(One(alt), t) <==> forall a | a in alt :: AttrOf(t, a) == alt[a]
  {
    if AltMatches(alt, t) {
      assert AltMatches(Alternatives(One(alt))[0], t);
      assert AltMatches(Alternatives(AnyOf([alt]))[0], t);
    }
  }

  /** Token 0 (the subject) is never inspected. */
  lemma SubjectIgnored(sentence: seq<Token>, subject: Token, pattern: seq<Slot>)
    requires sentence != []
    ensures PosMatches(sentence[0 := subject], pattern) == PosMatches(sentence, pattern)
  {
    var s' := sentence[0 := subject];
    assert Checked(s', pattern) == Checked(sentence, pattern);
    assert forall i :: 1 <= i < |sentence| ==> s'[i] == sentence[i];
  }

  /** Tokens beyond the last slot are ignored. */
  lemma ExtraTokensIgnored(sentence: seq<Token>, extra: seq<Token>, pattern: seq<Slot>)
    requires |sentence| > |pattern|
    ensures PosMatches(sentence + extra, pattern) == PosMatches(sentence, pattern)
  {
    var s' := sentence + extra;
    assert Checked(s', pattern) == Checked(sentence, pattern) == |pattern|;
    assert forall i :: 0 <= i < |sentence| ==> s'[i] == sentence[i];
  }

  /** Slots beyond the end of a short sentence go unchecked: a sentence of at most one token matches every pattern. */
  lemma ShortSentenceMatchesAnything(sentence: seq<Token>, pattern: seq<Slot>)
    requires |sentence| <= 1
    ensures PosMatches(sentence, pattern)
  {
  }

  /** A sentence that matches a pattern matches every prefix of it. */
  lemma PatternPrefix(sentence: seq<Token>, pattern: seq<Slot>, k: nat)
    requires k <= |pattern| && PosMatches(sentence, pattern)
    ensures PosMatches(sentence, pattern[..k])
  {
    assert Checked(sentence, pattern[..k]) <= Checked(sentence, pattern);
  }
}
