/**
  `preprocess_text` of the sentiment analyser: user handles become "@user"
  and links become "http", token by token, before the text reaches the
  classifier (which is not part of this model).
*/
module SentimentPreprocess {
  import opened Text

  /** The loop body: a handle longer than "@" first, then anything starting with "http". */
  function Normalised(token: string): string {
    if StartsWith(token, "@") && |token| > 1 then "@user"
    else if StartsWith(token, "http") then "http"
    else token
  }

  /** `Normalised` applied to every token. */
  function NormalisedAll(tokens: seq<string>): (r: seq<string>)
    ensures |r| == |tokens|
    ensures forall i :: 0 <= i < |tokens| ==> r[i] == Normalised(tokens[i])
  {
    seq(|tokens|, i requires 0 <= i < |tokens| => Normalised(tokens[i]))
  }

  /** Specification of `preprocess_text`. */
  function PreprocessText(text: string): string {
    Join(" ", NormalisedAll(Split(text)))
  }

  /** `preprocess_text`: the tokens of `text.split()`, each appended to `processed_tokens` in its normalised form. */
  method PreprocessTextLoop(text: string) returns (r: string)
    ensures r == PreprocessText(text)
  {
    var tokens := Split(text);
    var processed: seq<string> := [];
    for i := 0 to |tokens|
      invariant processed == NormalisedAll(tokens[..i])
    {
      var token := tokens[i];
      if StartsWith(token, "@") && |token| > 1 {
        processed := processed + ["@user"];
      } else if StartsWith(token, "http") {
        processed := processed + ["http"];
      } else {
        processed := processed + [token];
      }
    }
    assert tokens[..|tokens|] == tokens;
    r := Join(" ", processed);
  }

  /** A normalised word is still a word. */
  lemma NormalisedWords(tokens: seq<string>)
    requires AllWords(tokens)
    ensures AllWords(NormalisedAll(tokens))
  {
    var r := NormalisedAll(tokens);
    forall i | 0 <= i < |r| ensures IsWord(r[i]) {
      assert IsWord(tokens[i]);
      assert IsWord("@user") && IsWord("http");
    }
  }

  /** The output's tokens are the input's tokens, one for one and in order, each normalised. */
  lemma TokensPreserved(text: string)
    ensures Split(PreprocessText(text)) == NormalisedAll(Split(text))
    ensures |Split(PreprocessText(text))| == |Split(text)|
  {
    NormalisedWords(Split(text));
    SplitJoin(NormalisedAll(Split(text)));
  }

  /** Handles become "@user", a bare "@" stays; links become "http" unless they are handles; nothing else changes. */
  lemma NormalisedCases(token: string)
    ensures StartsWith(token, "@") && |token| > 1 ==> Normalised(token) == "@user"
    ensures token == "@" ==> Normalised(token) == "@"
    ensures !StartsWith(token, "@") && StartsWith(token, "http") ==> Normalised(token) == "http"
    ensures !StartsWith(token, "@") && !StartsWith(token, "http") ==> Normalised(token) == token
  {
  }

  /** The handle test comes first: "@http" is a handle. */
  lemma HandleBeforeLink()
    ensures Normalised("@http") == "@user"
  {
  }

  /** A normalised token normalises to itself. */
  lemma NormalisedIdempotent(token: string)
    ensures Normalised(Normalised(token)) == Normalised(token)
  {
    assert StartsWith("@user", "@") && StartsWith("http", "http");
  }

  /** `preprocess_text` is idempotent. */
  lemma PreprocessTextIdempotent(text: string)
    ensures PreprocessText(PreprocessText(text)) == PreprocessText(text)
  {
    TokensPreserved(text);
    var n := NormalisedAll(Split(text));
    forall i | 0 <= i < |n| ensures Normalised(n[i]) == n[i] {
      NormalisedIdempotent(Split(text)[i]);
    }
    assert NormalisedAll(n) == n;
  }
}
