/**
  `preproc_obt`: the token-level normaliser the commonsense builder applies
  to every generated object before deduplication. The tagger that finds the
  lemma and part of speech of the first word is a parameter.
*/
module CometPreproc {
  import opened Wrappers
  import opened Text
  import opened Patterns
  import opened Relations
  import Expectations

  /** A tagged analysis of a non-empty text: the tagger always yields at least one token for it. */
  type Doc = d: seq<Token> | |d| >= 1 witness [Token("", "", "", "")]

  /** The tagger (`spacy_processor`). */
  type Analyser = string -> Doc

  /** The relations whose objects are adjectives or feelings and are not lemmatised. */
  predicate Unlemmatised(rel: Relation) {
    rel == XAttr || rel == XReact
  }

  /** Steps 1-3: one leading "to" or "personx", then a leading "person x", then a trailing ".". */
  function TrimFrame(toks: seq<string>): seq<string>
    requires toks != []
  {
    var t1 := if toks[0] == "to" || toks[0] == "personx" then toks[1..] else toks;
    var t2 := if |t1| > 1 && t1[0] == "person" && t1[1] == "x" then t1[2..] else t1;
    if |t2| > 0 && t2[|t2| - 1] == "." then t2[..|t2| - 1] else t2
  }

  /** Step 4 for a tagged text: its first word becomes its lemma when it is a verb, the rest keep their text. */
  function LemmatiseFirst(doc: Doc): seq<string> {
    var vb := if doc[0].lemmaForm != "-PRON-" && doc[0].pos == "VERB" then doc[0].lemmaForm else doc[0].text;
    [vb] + Expectations.Texts(doc[1..])
  }

  /** Step 4: re-tag the words and lemmatise the first, except for xAttr and xReact or when nothing is left. */
  function Lemmatise(rel: Relation, analyse: Analyser, toks: seq<string>): seq<string> {
    if |toks| > 0 && !Unlemmatised(rel) then LemmatiseFirst(analyse(Join(" ", toks))) else toks
  }

  /** Step 5 for one word: "their" becomes "your", "they" becomes "you". */
  function SecondPerson(w: string): string {
    if w == "their" then "your" else if w == "they" then "you" else w
  }

  /** Step 5: `SecondPerson` applied to every word. */
  function Rewritten(toks: seq<string>): (r: seq<string>)
    ensures |r| == |toks|
    ensures forall i :: 0 <= i < |toks| ==> r[i] == SecondPerson(toks[i])
  {
    seq(|toks|, i requires 0 <= i < |toks| => SecondPerson(toks[i]))
  }

  /** Step 6: an object starting with "be" is discarded as "none". */
  function CollapseBe(toks: seq<string>): seq<string> {
    if |toks| > 0 && toks[0] == "be" then ["none"] else toks
  }

  /** The words of a preprocessed object, before they are joined with spaces. */
  function PreprocTokens(toks: seq<string>, rel: Relation, analyse: Analyser): seq<string>
    requires toks != []
  {
    CollapseBe(Rewritten(Lemmatise(rel, analyse, TrimFrame(toks))))
  }

  /** Specification of `preproc_obt`: a blank object fails at `toks[0]`. */
  function Preproc(obt: string, rel: Relation, analyse: Analyser): Result<string> {
    var toks := Split(obt);
    if toks == [] then Err(IndexOutOfRange) else Ok(Join(" ", PreprocTokens(toks, rel, analyse)))
  }

  /** `preproc_obt`, reassigning the word list step by step and rewriting pronouns in place. */
  method PreprocObt(obt: string, rel: Relation, analyse: Analyser) returns (r: Result<string>)
    ensures r == Preproc(obt, rel, analyse)
  {
    var toks := Split(obt);
    if toks == [] {
      return Err(IndexOutOfRange);
    }
    ghost var original := toks;
    toks := DropFrame(toks);
    if |toks| > 0 && rel != XAttr && rel != XReact {
      var doc := analyse(Join(" ", toks));
      var vb := if doc[0].lemmaForm != "-PRON-" && doc[0].pos == "VERB" then doc[0].lemmaForm else doc[0].text;
      toks := [vb] + Expectations.Texts(doc[1..]);
    }
    assert toks == Lemmatise(rel, analyse, TrimFrame(original));
    toks := RewritePronouns(toks);
    if |toks| > 0 && toks[0] == "be" {
      toks := ["none"];
    }
    r := Ok(Join(" ", toks));
  }

  /** The three reassignments of `toks` that drop the leading and trailing frame words. */
  method DropFrame(toks0: seq<string>) returns (toks: seq<string>)
    requires toks0 != []
    ensures toks == TrimFrame(toks0)
  {
    toks := toks0;
    if toks[0] == "to" || toks[0] == "personx" {
      toks := toks[1..];
    }
    if |toks| > 1 && toks[0] == "person" && toks[1] == "x" {
      toks := toks[2..];
    }
    if |toks| > 0 && toks[|toks| - 1] == "." {
      toks := toks[..|toks| - 1];
    }
  }

  /** The `for i in range(len(toks))` loop of `preproc_obt`: rewrites "their" and "they" in place. */
  method RewritePronouns(toks0: seq<string>) returns (toks: seq<string>)
    ensures toks == Rewritten(toks0)
  {
    toks := toks0;
    for i := 0 to |toks|
      invariant |toks| == |toks0|
      invariant forall j :: 0 <= j < i ==> toks[j] == SecondPerson(toks0[j])
      invariant forall j :: i <= j < |toks| ==> toks[j] == toks0[j]
    {
      if toks[i] == "their" {
        toks := toks[i := "your"];
      } else if toks[i] == "they" {
        toks := toks[i := "you"];
      }
    }
  }

  /** `preproc_obt` fails exactly on whitespace-only objects, the ones the builder filters out first. */
  lemma PreprocFailsIffBlank(obt: string, rel: Relation, analyse: Analyser)
    ensures Preproc(obt, rel, analyse).Err? <==> IsBlank(obt)
  {
    SplitEmptyIffBlank(obt);
  }

  /**
    The frame steps remove a contiguous run of words: at most three in front
    ("to"/"personx", then "person x") and at most one (".") at the end.
  */
  lemma TrimFrameIsSlice(toks: seq<string>)
    requires toks != []
    ensures exists a, b :: 0 <= a <= 3 && |toks| - 1 <= b <= |toks| && a <= b && TrimFrame(toks) == toks[a..b]
  {
    var a1 := if toks[0] == "to" || toks[0] == "personx" then 1 else 0;
    var t1 := toks[a1..];
    var a2 := if |t1| > 1 && t1[0] == "person" && t1[1] == "x" then a1 + 2 else a1;
    var t2 := toks[a2..];
    assert t2 == (if a2 == a1 then t1 else t1[2..]);
    if |t2| > 0 && t2[|t2| - 1] == "." {
      assert TrimFrame(toks) == toks[a2..|toks| - 1];
    } else {
      assert TrimFrame(toks) == toks[a2..|toks|];
    }
  }

  /** Only one leading "to" goes: "to to go" keeps its second "to". */
  lemma OneLeadingToDropped()
    ensures TrimFrame(["to", "to", "go"]) == ["to", "go"]
  {
    assert ["to", "to", "go"][1..] == ["to", "go"];
  }

  /** No preprocessed object contains the words "their" or "they". */
  lemma NoThirdPersonPlural(toks: seq<string>, rel: Relation, analyse: Analyser)
    requires toks != []
    ensures forall w :: w in PreprocTokens(toks, rel, analyse) ==> w != "their" && w != "they"
  {
    var r := Rewritten(Lemmatise(rel, analyse, TrimFrame(toks)));
    forall w | w in r ensures w != "their" && w != "they" {
      var i :| 0 <= i < |r| && r[i] == w;
    }
  }

  /** A preprocessed object never starts with "be"; one that would have is the single word "none". */
  lemma NeverStartsWithBe(toks: seq<string>, rel: Relation, analyse: Analyser)
    requires toks != []
    ensures var r := PreprocTokens(toks, rel, analyse);
      (|r| > 0 ==> r[0] != "be")
      && (var w := Rewritten(Lemmatise(rel, analyse, TrimFrame(toks))); |w| > 0 && w[0] == "be" ==> r == ["none"])
  {
  }

  /** The pronoun rewrite is idempotent. */
  lemma RewrittenIdempotent(toks: seq<string>)
    ensures Rewritten(Rewritten(toks)) == Rewritten(toks)
  {
  }

  /** xAttr and xReact objects never reach the tagger, so its answer does not matter for them. */
  lemma UnlemmatisedIgnoresTagger(obt: string, rel: Relation, a1: Analyser, a2: Analyser)
    requires Unlemmatised(rel)
    ensures Preproc(obt, rel, a1) == Preproc(obt, rel, a2)
  {
  }

  /** For other relations only the first word can change, to its lemma, and only when the tagger calls it a verb. */
  lemma OnlyFirstWordLemmatised(rel: Relation, analyse: Analyser, toks: seq<string>)
    requires toks != [] && !Unlemmatised(rel)
    ensures var doc := analyse(Join(" ", toks)); var r := Lemmatise(rel, analyse, toks);
      |r| == |doc|
      && (forall i :: 1 <= i < |doc| ==> r[i] == doc[i].text)
      && (r[0] != doc[0].text ==> r[0] == doc[0].lemmaForm && doc[0].pos == "VERB")
  {
    var doc := analyse(Join(" ", toks));
    var rest := Expectations.Texts(doc[1..]);
    forall i | 1 <= i < |doc| ensures rest[i - 1] == doc[i].text {
      TextsIndex(doc[1..], i - 1);
    }
  }

  lemma {:induction false} TextsIndex(ts: seq<Token>, i: nat)
    requires i < |ts|
    ensures Expectations.Texts(ts)[i] == ts[i].text
  {
    if i > 0 {
      TextsIndex(ts[1..], i - 1);
    }
  }

  /** "person x loves their dog ." as an xAttr object: the frame goes, "their" becomes "your". */
  lemma PersonXLovesTheirDog(analyse: Analyser)
    ensures PreprocTokens(["person", "x", "loves", "their", "dog", "."], XAttr, analyse) == ["loves", "your", "dog"]
  {
    var toks := ["person", "x", "loves", "their", "dog", "."];
    assert toks[2..] == ["loves", "their", "dog", "."];
    assert ["loves", "their", "dog", "."][..3] == ["loves", "their", "dog"];
    assert TrimFrame(toks) == ["loves", "their", "dog"];
  }

  /** "to be kind" as an xAttr object collapses to "none". */
  lemma ToBeKindIsNone(analyse: Analyser)
    ensures PreprocTokens(["to", "be", "kind"], XAttr, analyse) == ["none"]
  {
    assert ["to", "be", "kind"][1..] == ["be", "kind"];
  }
}
