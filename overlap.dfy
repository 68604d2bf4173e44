/**
  `remove_comet_overlap`: the post-processing of the commonsense objects
  generated for an event and, optionally, for its failed expectation.
  Each side is normalised and deduplicated per relation; expectation objects
  that resemble event objects are pruned; objects whose one-object sentence
  disagrees in sentiment with the side's xAttr reference sentence are
  dropped; finally each relation loses the objects that resemble one kept
  under a relation earlier in the priority order.
*/
module CometOverlap {
  import opened Wrappers
  import opened Text
  import opened Seqs
  import opened CometObjects
  import opened CometPreproc
  import opened Relations

  /** Relation name -> generated objects, as the generator returns them. */
  type Commonsense = map<Relation, seq<string>>

  /**
    The sentiment classifier (`get_sentiment`) on the sentences the builder
    generates: the label of `Render(s)`. Every sentence it is asked about is
    one `gen_sentence` produced, so it is given the sentence itself.
  */
  type Sentiment = Sentence -> string

  /** The order in which the final pass hands out objects to relations. */
  const Priority: seq<Relation> := [XAttr, XIntent, XNeed, XReact, XWant, XEffect]

  /** A relation's position in `Priority`: every relation has one. */
  function Rank(r: Relation): (k: nat)
    ensures k < |Priority| && Priority[k] == r
  {
    match r
    case XAttr => 0
    case XIntent => 1
    case XNeed => 2
    case XReact => 3
    case XWant => 4
    case XEffect => 5
  }

  /** `sents_contradict`. */
  predicate SentsContradict(sentiment: Sentiment, s1: Sentence, s2: Sentence) {
    sentiment(s1) != sentiment(s2)
  }

  /** `preproc_obt` of an object the comprehension lets through: it is never blank, so never fails. */
  function PreprocKept(rel: Relation, analyse: Analyser, obt: string): string
    requires |Strip(obt)| > 0
  {
    StripEmptyIffBlank(obt);
    SplitEmptyIffBlank(obt);
    Join(" ", PreprocTokens(Split(obt), rel, analyse))
  }

  /** The comprehension: objects other than "none" and blank ones, preprocessed, in order. */
  function Prepared(rel: Relation, analyse: Analyser, obts: seq<string>): seq<string>
    decreases |obts|
  {
    if obts == [] then []
    else
      var o := obts[|obts| - 1];
      Prepared(rel, analyse, obts[..|obts| - 1])
        + (if o != "none" && |Strip(o)| > 0 then [PreprocKept(rel, analyse, o)] else [])
  }

  /** Step 1 for one side: every relation's objects prepared, then `obts_unique`. */
  function Normalise(stop: set<string>, analyse: Analyser, cs: Commonsense): (r: Commonsense)
    ensures r.Keys == cs.Keys
  {
    map rel | rel in cs :: Unique(stop, Prepared(rel, analyse, cs[rel]))
  }

  /**
    The lookups of step 2 find their lists: `common_cs` reads the expectation
    list of every event relation, and the pruning comprehension reads
    `common_cs[R]` only for an expectation relation that has objects left.
  */
  predicate PruneLookupsSucceed(inN: Commonsense, expN: Commonsense) {
    inN.Keys <= expN.Keys && forall rel :: rel in expN && rel !in inN ==> expN[rel] == []
  }

  /**
    Step 2: the expectation objects of each relation that are not in its
    event/expectation intersection; a relation the event lacks keeps its list.
  */
  function Prune(stop: set<string>, inN: Commonsense, expN: Commonsense): (r: Commonsense)
    requires inN.Keys <= expN.Keys
    ensures r.Keys == expN.Keys
  {
    map rel | rel in expN :: if rel in inN then ObtsDiff(stop, expN[rel], ObtsInters(stop, inN[rel], expN[rel])) else expN[rel]
  }

  /** Python's `xs[:k]`. */
  function Take(xs: seq<string>, k: nat): seq<string> {
    if |xs| <= k then xs else xs[..k]
  }

  /** The reference sentence of a side: the xAttr template around its first five xAttr objects. */
  function RefSentence(xattr: seq<string>): (r: Sentence)
    requires xattr != []
    ensures Compose(XAttr, Take(xattr, 5)) == Ok(r)
  {
    AndJoinShape(Take(xattr, 5));
    Sentence(XAttr, AndJoin(Take(xattr, 5)).value)
  }

  /** The objects of relation `rel` whose one-object sentence has the reference sentence's sentiment, in order. */
  function Agreeing(sentiment: Sentiment, ref: Sentence, rel: Relation, obts: seq<string>): seq<string> {
    Filter(o => !SentsContradict(sentiment, ref, Sentence(rel, o)), obts)
  }

  /** Step 4 for one side, against that side's reference sentence `ref`. */
  function FilterSide(sentiment: Sentiment, ref: Sentence, cs: Commonsense): (r: Commonsense)
    ensures r.Keys == cs.Keys
  {
    map rel | rel in cs :: Agreeing(sentiment, ref, rel, cs[rel])
  }

  /** The state of the priority loop for one side: the relation map so far and the objects kept so far. */
  datatype Pass = Pass(cs: Commonsense, acc: seq<string>)

  /** Every relation in `rels` has a list in `cs` (otherwise `cs[R]` raises KeyError). */
  predicate HasAll(cs: Commonsense, rels: seq<Relation>) {
    forall i :: 0 <= i < |rels| ==> rels[i] in cs
  }

  /** Every relation has a list in `cs`. */
  predicate Complete(cs: Commonsense) {
    forall r: Relation :: r in cs
  }

  lemma CompleteHasAll(cs: Commonsense, rels: seq<Relation>)
    requires Complete(cs)
    ensures HasAll(cs, rels)
  {
  }

  /** The priority list names every relation, so the loop finds them all exactly when the map is complete. */
  lemma HasAllPriority(cs: Commonsense)
    ensures HasAll(cs, Priority) <==> Complete(cs)
  {
    if HasAll(cs, Priority) {
      forall r: Relation ensures r in cs {
        assert Priority[Rank(r)] == r;
      }
    }
  }

  /** Step 5 for one side, after visiting the relations `rels` in order. */
  function DedupeOver(stop: set<string>, cs: Commonsense, rels: seq<Relation>): (p: Pass)
    requires HasAll(cs, rels)
    ensures p.cs.Keys == cs.Keys
    decreases |rels|
  {
    if rels == [] then Pass(cs, [])
    else
      var prev := DedupeOver(stop, cs, rels[..|rels| - 1]);
      var rel := rels[|rels| - 1];
      var kept := ObtsDiff(stop, prev.cs[rel], prev.acc);
      Pass(prev.cs[rel := kept], prev.acc + kept)
  }

  function Dedupe(stop: set<string>, cs: Commonsense): Commonsense
    requires Complete(cs)
  {
    CompleteHasAll(cs, Priority);
    DedupeOver(stop, cs, Priority).cs
  }

  /** Steps 4 and 5 for one side whose reference sentence is `ref`. */
  function Finish(stop: set<string>, sentiment: Sentiment, ref: Sentence, cs: Commonsense): (r: Commonsense)
    requires Complete(cs)
    ensures r.Keys == cs.Keys
  {
    Dedupe(stop, FilterSide(sentiment, ref, cs))
  }

  /** The expectation side after steps 1-3, or None when it is dropped. */
  function ExpectationSide(stop: set<string>, analyse: Analyser, inN: Commonsense, expCs: Option<Commonsense>): Result<Option<Commonsense>> {
    if expCs.None? then Ok(None)
    else if XAttr !in expCs.value then Err(MissingKey)
    else if expCs.value[XAttr] == [] then Ok(None)
    else
      var expN := Normalise(stop, analyse, expCs.value);
      if !PruneLookupsSucceed(inN, expN) then Err(MissingKey)
      else
        var pruned := Prune(stop, inN, expN);
        if pruned[XAttr] == [] then Ok(None) else Ok(Some(pruned))
  }

  /** The expectation side, when it is kept, keeps its own relations, has a list for every event relation and has xAttr objects. */
  lemma ExpectationSideShape(stop: set<string>, analyse: Analyser, inN: Commonsense, expCs: Option<Commonsense>)
    requires ExpectationSide(stop, analyse, inN, expCs).Ok?
    ensures var e := ExpectationSide(stop, analyse, inN, expCs).value;
      e.Some? ==> expCs.Some? && e.value.Keys == expCs.value.Keys && inN.Keys <= e.value.Keys
                  && XAttr in e.value && e.value[XAttr] != []
  {
  }

  /** Steps 4 and 5 on both sides, given their reference sentences; a relation missing from the priority list fails. */
  function FinishWith(stop: set<string>, sentiment: Sentiment, inRef: Sentence, inN: Commonsense,
                      expRef: Sentence, exp: Option<Commonsense>): Result<(Commonsense, Option<Commonsense>)>
    requires exp.Some? ==> inN.Keys <= exp.value.Keys
  {
    if !Complete(inN) then Err(MissingKey)
    else
      assert exp.Some? ==> Complete(exp.value) by {
        if exp.Some? {
          forall r: Relation ensures r in exp.value { assert r in inN.Keys; }
        }
      }
      var expOut := if exp.Some? then Some(Finish(stop, sentiment, expRef, exp.value)) else None;
      Ok((Finish(stop, sentiment, inRef, inN), expOut))
  }

  /** Steps 4 and 5 on both sides, after the event side's xAttr reference sentence is checked to exist. */
  function FinishBoth(stop: set<string>, sentiment: Sentiment, inN: Commonsense, exp: Option<Commonsense>): Result<(Commonsense, Option<Commonsense>)>
    requires exp.Some? ==> inN.Keys <= exp.value.Keys && XAttr in exp.value && exp.value[XAttr] != []
  {
    if XAttr !in inN then Err(MissingKey)
    else if inN[XAttr] == [] then Err(IndexOutOfRange)
    else
      var expRef := if exp.Some? then RefSentence(exp.value[XAttr]) else Sentence(XAttr, "");
      FinishWith(stop, sentiment, RefSentence(inN[XAttr]), inN, expRef, exp)
  }

  /** Specification of `remove_comet_overlap`: the two processed sides, or the error Python raises. */
  function RemoveOverlap(stop: set<string>, analyse: Analyser, sentiment: Sentiment,
                         inCs: Commonsense, expCs: Option<Commonsense>): Result<(Commonsense, Option<Commonsense>)>
  {
    var inN := Normalise(stop, analyse, inCs);
    match ExpectationSide(stop, analyse, inN, expCs)
    case Err(e) => Err(e)
    case Ok(exp) =>
      ExpectationSideShape(stop, analyse, inN, expCs);
      FinishBoth(stop, sentiment, inN, exp)
  }

  /** Lines 165-189 of `remove_comet_overlap`: the expectation side reassigned step by step. */
  method PruneExpectations(stop: set<string>, analyse: Analyser, inCs: Commonsense, expCs0: Option<Commonsense>)
    returns (r: Result<Option<Commonsense>>)
    ensures r == ExpectationSide(stop, analyse, inCs, expCs0)
  {
    var expCs := expCs0;
    if expCs.Some? && XAttr !in expCs.value {
      return Err(MissingKey);
    }
    if expCs.Some? && |expCs.value[XAttr]| == 0 {
      expCs := None;
    }
    if expCs.Some? {
      expCs := Some(Normalise(stop, analyse, expCs.value));
      // `common_cs`: `exp_cs[R]` for every event relation
      if !(inCs.Keys <= expCs.value.Keys) {
        return Err(MissingKey);
      }
      // the pruning comprehension evaluates `common_cs[R]` only when there is an object to test
      if exists rel | rel in expCs.value :: rel !in inCs && expCs.value[rel] != [] {
        return Err(MissingKey);
      }
      expCs := Some(Prune(stop, inCs, expCs.value));
    }
    if expCs.Some? && |expCs.value[XAttr]| == 0 {
      expCs := None;
    }
    r := Ok(expCs);
  }

  /** One iteration of the priority loop for one side: `cs[R] = obts_diff(cs[R], acc)`, then `acc.update(cs[R])`. */
  method DedupeStep(stop: set<string>, cs0: Commonsense, rels: seq<Relation>, cs: Commonsense, acc: seq<string>, rel: Relation)
    returns (cs': Commonsense, acc': seq<string>)
    requires HasAll(cs0, rels) && rel in cs
    requires Pass(cs, acc) == DedupeOver(stop, cs0, rels)
    ensures HasAll(cs0, rels + [rel])
    ensures Pass(cs', acc') == DedupeOver(stop, cs0, rels + [rel])
  {
    var rs := rels + [rel];
    assert rs[..|rs| - 1] == rels;
    cs' := cs[rel := ObtsDiff(stop, cs[rel], acc)];
    acc' := acc + cs'[rel];
  }

  /** Lines 218-225 of `remove_comet_overlap`: the priority loop over both sides, updating them in place. */
  method PriorityPass(stop: set<string>, inF: Commonsense, expF: Option<Commonsense>)
    returns (r: Result<(Commonsense, Option<Commonsense>)>)
    requires expF.Some? ==> inF.Keys <= expF.value.Keys
    ensures r.Err? <==> !Complete(inF)
    ensures r.Err? ==> r.failure == MissingKey
    ensures r.Ok? ==> r.value.0 == Dedupe(stop, inF)
    ensures r.Ok? ==> r.value.1 == if expF.Some? then Some(Dedupe(stop, expF.value)) else None
  {
    var inCs, expCs := inF, expF;
    var inAcc: seq<string>, expAcc: seq<string> := [], [];
    for i := 0 to |Priority|
      invariant HasAll(inF, Priority[..i])
      invariant Pass(inCs, inAcc) == DedupeOver(stop, inF, Priority[..i])
      invariant expCs.Some? == expF.Some?
      invariant expF.Some? ==> HasAll(expF.value, Priority[..i])
      invariant expF.Some? ==> Pass(expCs.value, expAcc) == DedupeOver(stop, expF.value, Priority[..i])
    {
      var rel := Priority[i];
      if rel !in inCs {
        assert rel !in inF;
        return Err(MissingKey);
      }
      assert Priority[..i + 1] == Priority[..i] + [rel];
      inCs, inAcc := DedupeStep(stop, inF, Priority[..i], inCs, inAcc, rel);
      if expCs.Some? {
        assert rel in expF.value.Keys;
        var e, a := DedupeStep(stop, expF.value, Priority[..i], expCs.value, expAcc, rel);
        expCs, expAcc := Some(e), a;
      }
    }
    assert Priority[..|Priority|] == Priority;
    HasAllPriority(inF);
    r := Ok((inCs, expCs));
  }

  /** Lines 191-193 of `remove_comet_overlap`: the two reference sentences. */
  method FilterAndDedupe(stop: set<string>, sentiment: Sentiment, inCs: Commonsense, expCs: Option<Commonsense>)
    returns (r: Result<(Commonsense, Option<Commonsense>)>)
    requires expCs.Some? ==> inCs.Keys <= expCs.value.Keys && XAttr in expCs.value && expCs.value[XAttr] != []
    ensures r == FinishBoth(stop, sentiment, inCs, expCs)
  {
    if XAttr !in inCs {
      return Err(MissingKey);
    }
    if inCs[XAttr] == [] {
      return Err(IndexOutOfRange);
    }
    var inRef := RefSentence(inCs[XAttr]);
    var expRef := Sentence(XAttr, "");
    if expCs.Some? {
      expRef := RefSentence(expCs.value[XAttr]);
    }
    r := FilterThenDedupe(stop, sentiment, inRef, inCs, expRef, expCs);
  }

  /** Lines 195-227 of `remove_comet_overlap`: the sentiment filter on both sides, then the priority loop. */
  method FilterThenDedupe(stop: set<string>, sentiment: Sentiment, inRef: Sentence, inCs: Commonsense,
                          expRef: Sentence, expCs: Option<Commonsense>)
    returns (r: Result<(Commonsense, Option<Commonsense>)>)
    requires expCs.Some? ==> inCs.Keys <= expCs.value.Keys
    ensures r == FinishWith(stop, sentiment, inRef, inCs, expRef, expCs)
  {
    var inF := FilterSide(sentiment, inRef, inCs);
    var expF := None;
    if expCs.Some? {
      expF := Some(FilterSide(sentiment, expRef, expCs.value));
    }
    r := PriorityPass(stop, inF, expF);
  }

  /** `remove_comet_overlap`: each side reassigned by comprehensions, then the priority loop. */
  method RemoveCometOverlap(stop: set<string>, analyse: Analyser, sentiment: Sentiment,
                            inCs0: Commonsense, expCs0: Option<Commonsense>)
    returns (r: Result<(Commonsense, Option<Commonsense>)>)
    ensures r == RemoveOverlap(stop, analyse, sentiment, inCs0, expCs0)
  {
    var inCs := Normalise(stop, analyse, inCs0);
    var expCs := PruneExpectations(stop, analyse, inCs, expCs0);
    if expCs.Err? {
      return Err(expCs.failure);
    }
    ExpectationSideShape(stop, analyse, inCs, expCs0);
    r := FilterAndDedupe(stop, sentiment, inCs, expCs.value);
  }
}
