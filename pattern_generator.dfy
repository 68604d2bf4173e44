/**
  `preprocess` of the pattern response generator: every commonsense object
  loses one leading "to" and has its "personx" tokens replaced by "you",
  then the objects are listed as "a, b and c".
*/
module PatternPreprocess {
  import opened Wrappers
  import opened Text

  /** One leading "to" goes; a blank object has no first token and fails. */
  function DropTo(toks: seq<string>): seq<string>
    requires toks != []
  {
    if toks[0] == "to" then toks[1..] else toks
  }

  /** "personx" becomes "you". */
  function YouFor(w: string): string {
    if w == "personx" then "you" else w
  }

  /** `YouFor` applied to every token. */
  function Youed(toks: seq<string>): (r: seq<string>)
    ensures |r| == |toks|
    ensures forall i :: 0 <= i < |toks| ==> r[i] == YouFor(toks[i])
  {
    seq(|toks|, i requires 0 <= i < |toks| => YouFor(toks[i]))
  }

  /** One object after the body of the outer loop: `' '.join(toks)`, or the IndexError of `toks[0]`. */
  function PreprocessObt(obt: string): Result<string> {
    var toks := Split(obt);
    if toks == [] then Err(IndexOutOfRange) else Ok(Join(" ", Youed(DropTo(toks))))
  }

  /** `pre_obts`: every object preprocessed, in order; any blank object raises. */
  function PreObts(obts: seq<string>): (r: Result<seq<string>>)
    ensures r.Ok? ==> |r.value| == |obts|
    decreases |obts|
  {
    if obts == [] then Ok([])
    else
      match PreObts(obts[..|obts| - 1])
      case Err(e) => Err(e)
      case Ok(pre) =>
        match PreprocessObt(obts[|obts| - 1])
        case Err(e) => Err(e)
        case Ok(p) => Ok(pre + [p])
  }

  /** `', '.join(pre_obts[:-1]) + ' and ' + pre_obts[-1]`: an empty list has no last object. */
  function AndList(pre: seq<string>): Result<string> {
    if pre == [] then Err(IndexOutOfRange)
    else Ok(Join(", ", pre[..|pre| - 1]) + " and " + pre[|pre| - 1])
  }

  /** Specification of `preprocess`. */
  function Preprocess(obts: seq<string>): Result<string> {
    match PreObts(obts)
    case Err(e) => Err(e)
    case Ok(pre) => AndList(pre)
  }

  /** The inner `for i in range(len(toks))` loop, rewriting "personx" in place. */
  method ReplacePersonX(toks0: seq<string>) returns (toks: seq<string>)
    ensures toks == Youed(toks0)
  {
    toks := toks0;
    for i := 0 to |toks|
      invariant |toks| == |toks0|
      invariant forall j :: 0 <= j < i ==> toks[j] == YouFor(toks0[j])
      invariant forall j :: i <= j < |toks| ==> toks[j] == toks0[j]
    {
      if toks[i] == "personx" {
        toks := toks[i := "you"];
      }
    }
  }

  /** `preprocess`: the outer loop appends each object to `pre_obts`, then the objects are listed. */
  method PreprocessObts(obts: seq<string>) returns (r: Result<string>)
    ensures r == Preprocess(obts)
  {
    var preObts: seq<string> := [];
    for k := 0 to |obts|
      invariant PreObts(obts[..k]) == Ok(preObts)
    {
      assert obts[..k + 1][..k] == obts[..k];
      var toks := Split(obts[k]);
      if toks == [] {
        PreObtsErrExtends(obts, k + 1);
        return Err(IndexOutOfRange);
      }
      if toks[0] == "to" {
        toks := toks[1..];
      }
      toks := ReplacePersonX(toks);
      preObts := preObts + [Join(" ", toks)];
    }
    assert obts[..|obts|] == obts;
    if preObts == [] {
      return Err(IndexOutOfRange);
    }
    r := Ok(Join(", ", preObts[..|preObts| - 1]) + " and " + preObts[|preObts| - 1]);
  }

  /** A failure on a prefix is a failure of the whole list. */
  lemma {:induction false} PreObtsErrExtends(obts: seq<string>, k: nat)
    requires k <= |obts| && PreObts(obts[..k]).Err?
    ensures PreObts(obts) == Err(IndexOutOfRange)
    decreases |obts| - k
  {
    if k < |obts| {
      assert obts[..k + 1][..k] == obts[..k];
      PreObtsErrExtends(obts, k + 1);
    } else {
      assert obts[..k] == obts;
      PreObtsErrIsIndex(obts);
    }
  }

  /** The only failure is the IndexError of a blank object. */
  lemma {:induction false} PreObtsErrIsIndex(obts: seq<string>)
    ensures PreObts(obts).Err? ==> PreObts(obts) == Err(IndexOutOfRange)
    decreases |obts|
  {
    if obts != [] {
      PreObtsErrIsIndex(obts[..|obts| - 1]);
    }
  }

  /** The objects are preprocessed one by one: the i-th entry is the i-th object's result. */
  lemma {:induction false} PreObtsIndex(obts: seq<string>, i: nat)
    requires PreObts(obts).Ok? && i < |obts|
    ensures PreprocessObt(obts[i]).Ok? && PreObts(obts).value[i] == PreprocessObt(obts[i]).value
    decreases |obts|
  {
    if i < |obts| - 1 {
      PreObtsIndex(obts[..|obts| - 1], i);
    }
  }

  /** `preprocess` fails exactly on an empty list or a list with a blank object. */
  lemma PreprocessFailsIff(obts: seq<string>)
    ensures Preprocess(obts).Err? <==> obts == [] || exists i :: 0 <= i < |obts| && IsBlank(obts[i])
  {
    PreObtsBlankIff(obts);
  }

  /** `pre_obts` cannot be built exactly when some object is blank. */
  lemma {:induction false} PreObtsBlankIff(obts: seq<string>)
    ensures PreObts(obts).Err? <==> exists i :: 0 <= i < |obts| && IsBlank(obts[i])
    decreases |obts|
  {
    if obts != [] {
      var init := obts[..|obts| - 1];
      PreObtsBlankIff(init);
      PreObtsStep(obts);
      BlankSnoc(obts);
    }
  }

  /** The last object fails the list exactly when it is blank and the rest did not fail. */
  lemma PreObtsStep(obts: seq<string>)
    requires obts != []
    ensures PreObts(obts).Err? <==> PreObts(obts[..|obts| - 1]).Err? || IsBlank(obts[|obts| - 1])
  {
    SplitEmptyIffBlank(obts[|obts| - 1]);
  }

  /** Some object is blank. */
  predicate AnyBlank(obts: seq<string>) {
    exists i :: 0 <= i < |obts| && IsBlank(obts[i])
  }

  /** Some object is blank exactly when one before the last or the last one is. */
  lemma BlankSnoc(obts: seq<string>)
    requires obts != []
    ensures AnyBlank(obts) <==> AnyBlank(obts[..|obts| - 1]) || IsBlank(obts[|obts| - 1])
  {
    var init := obts[..|obts| - 1];
    if exists i :: 0 <= i < |obts| && IsBlank(obts[i]) {
      var i :| 0 <= i < |obts| && IsBlank(obts[i]);
      if i < |init| {
        assert IsBlank(init[i]);
      }
    }
    if exists i :: 0 <= i < |init| && IsBlank(init[i]) {
      var i :| 0 <= i < |init| && IsBlank(init[i]);
      assert IsBlank(obts[i]);
    }
  }

  /** A successful result lists every object's result: all but the last joined by ", ", then " and " and the last. */
  lemma PreprocessShape(obts: seq<string>)
    requires Preprocess(obts).Ok?
    ensures obts != [] && PreObts(obts).Ok?
    ensures var pre := PreObts(obts).value;
      Preprocess(obts).value == Join(", ", pre[..|pre| - 1]) + " and " + pre[|pre| - 1]
    ensures forall i :: 0 <= i < |obts| ==> PreprocessObt(obts[i]).Ok? && PreObts(obts).value[i] == PreprocessObt(obts[i]).value
  {
    forall i | 0 <= i < |obts| ensures PreprocessObt(obts[i]).Ok? && PreObts(obts).value[i] == PreprocessObt(obts[i]).value {
      PreObtsIndex(obts, i);
    }
  }

  /** A single object comes out behind a leading " and ". */
  lemma SingleObject(obt: string)
    requires !IsBlank(obt)
    ensures PreprocessObt(obt).Ok? && Preprocess([obt]) == Ok(" and " + PreprocessObt(obt).value)
  {
    SplitEmptyIffBlank(obt);
    var p := PreprocessObt(obt).value;
    assert [obt][..0] == [];
    assert PreObts([obt]) == Ok([] + [p]);
    assert [p][..0] == [] && Join(", ", []) == [];
    assert [] + " and " + p == " and " + p;
  }

  /**
    The preprocessed object's tokens are the object's tokens with one
    leading "to" dropped and "personx" replaced: whitespace runs collapse
    to single spaces and no "personx" token is left.
  */
  lemma ObjectTokens(obt: string)
    requires !IsBlank(obt)
    ensures PreprocessObt(obt).Ok?
    ensures Split(PreprocessObt(obt).value) == Youed(DropTo(Split(obt)))
    ensures "personx" !in Split(PreprocessObt(obt).value)
  {
    SplitEmptyIffBlank(obt);
    var toks := DropTo(Split(obt));
    var ys := Youed(toks);
    assert AllWords(toks);
    assert AllWords(ys) by {
      forall i | 0 <= i < |ys| ensures IsWord(ys[i]) {
        assert IsWord(toks[i]);
        assert IsWord("you");
      }
    }
    SplitJoin(ys);
  }

  /** Only one leading "to" is removed. */
  lemma OneToRemoved()
    ensures DropTo(["to", "to", "go"]) == ["to", "go"]
  {
    assert ["to", "to", "go"][1..] == ["to", "go"];
  }
}
