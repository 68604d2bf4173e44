/**
  What `remove_comet_overlap` guarantees about its two outputs: every list is
  an order-preserving subsequence of the normalised input (so holds no
  "none", no empty object and no two resembling objects), agrees in
  sentiment with its side's reference sentence, and shares no resembling
  object with a relation earlier in the priority order; expectation objects
  that resemble event objects are gone; the event side never depends on the
  expectation side.
*/
module OverlapProperties {
  import opened Wrappers
  import opened Seqs
  import opened CometObjects
  import opened CometPreproc
  import opened Relations
  import opened CometOverlap

  /** No relation is visited twice. */
  predicate NoRepeats(rels: seq<Relation>) {
    forall i, j :: 0 <= i < j < |rels| ==> rels[i] != rels[j]
  }

  lemma PriorityNoRepeats()
    ensures NoRepeats(Priority)
  {
  }

  lemma HasAllPrefix(cs: Commonsense, rels: seq<Relation>)
    requires HasAll(cs, rels) && rels != []
    ensures HasAll(cs, rels[..|rels| - 1])
  {
    var init := rels[..|rels| - 1];
    assert forall i :: 0 <= i < |init| ==> init[i] == rels[i];
  }

  // The priority pass.

  /** The pass only removes objects: every relation's list stays a subsequence of its input. */
  lemma {:induction false} DedupeSubseq(stop: set<string>, cs: Commonsense, rels: seq<Relation>, rel: Relation)
    requires HasAll(cs, rels) && rel in cs
    ensures Subseq(DedupeOver(stop, cs, rels).cs[rel], cs[rel])
    decreases |rels|
  {
    if rels == [] {
      SubseqRefl(cs[rel]);
    } else {
      var init, r := rels[..|rels| - 1], rels[|rels| - 1];
      HasAllPrefix(cs, rels);
      DedupeSubseq(stop, cs, init, rel);
      var prev := DedupeOver(stop, cs, init);
      if rel == r {
        assert DedupeOver(stop, cs, rels).cs[rel] == ObtsDiff(stop, prev.cs[r], prev.acc);
        DiffSubseq(stop, prev.cs[r], prev.acc);
        SubseqTrans(ObtsDiff(stop, prev.cs[r], prev.acc), prev.cs[r], cs[r]);
      } else {
        assert DedupeOver(stop, cs, rels).cs[rel] == prev.cs[rel];
      }
    }
  }

  /** Everything kept under a visited relation is in the accumulator. */
  lemma {:induction false} DedupeAcc(stop: set<string>, cs: Commonsense, rels: seq<Relation>, i: nat, o: string)
    requires HasAll(cs, rels) && i < |rels|
    requires o in DedupeOver(stop, cs, rels).cs[rels[i]]
    ensures o in DedupeOver(stop, cs, rels).acc
    decreases |rels|
  {
    var init, r := rels[..|rels| - 1], rels[|rels| - 1];
    HasAllPrefix(cs, rels);
    var prev, p := DedupeOver(stop, cs, init), DedupeOver(stop, cs, rels);
    var kept := ObtsDiff(stop, prev.cs[r], prev.acc);
    assert p == Pass(prev.cs[r := kept], prev.acc + kept);
    if rels[i] == r {
      assert o in kept;
    } else {
      assert i < |init| && rels[i] == init[i];
      assert o in prev.cs[init[i]];
      DedupeAcc(stop, cs, init, i, o);
    }
  }

  /** No object kept under a relation resembles one kept under a relation visited before it. */
  lemma {:induction false} DedupeExclusive(stop: set<string>, cs: Commonsense, rels: seq<Relation>, i: nat, j: nat, o: string, o': string)
    requires HasAll(cs, rels) && NoRepeats(rels) && i < j < |rels|
    requires o in DedupeOver(stop, cs, rels).cs[rels[j]] && o' in DedupeOver(stop, cs, rels).cs[rels[i]]
    ensures !ObtEq(stop, o, o')
    decreases |rels|
  {
    var init, r := rels[..|rels| - 1], rels[|rels| - 1];
    HasAllPrefix(cs, rels);
    var prev, p := DedupeOver(stop, cs, init), DedupeOver(stop, cs, rels);
    var kept := ObtsDiff(stop, prev.cs[r], prev.acc);
    assert p == Pass(prev.cs[r := kept], prev.acc + kept);
    assert rels[i] == init[i] && rels[i] != r;
    assert o' in prev.cs[init[i]];
    if j == |rels| - 1 {
      DedupeAcc(stop, cs, init, i, o');
      DiffExcludes(stop, prev.cs[r], prev.acc, o, o');
    } else {
      assert rels[j] == init[j] && rels[j] != r;
      assert NoRepeats(init);
      DedupeExclusive(stop, cs, init, i, j, o, o');
    }
  }

  /** Relations that are not visited pass through unchanged. */
  lemma {:induction false} DedupeUntouched(stop: set<string>, cs: Commonsense, rels: seq<Relation>, rel: Relation)
    requires HasAll(cs, rels) && rel in cs && rel !in rels
    ensures DedupeOver(stop, cs, rels).cs[rel] == cs[rel]
    decreases |rels|
  {
    if rels != [] {
      HasAllPrefix(cs, rels);
      DedupeUntouched(stop, cs, rels[..|rels| - 1], rel);
    }
  }

  // The sentiment filter.

  lemma AgreeingSubseq(sentiment: Sentiment, ref: Sentence, rel: Relation, obts: seq<string>)
    ensures Subseq(Agreeing(sentiment, ref, rel, obts), obts)
  {
    FilterSubseq(o => !SentsContradict(sentiment, ref, Sentence(rel, o)), obts);
  }

  /** The filter keeps exactly the objects whose one-object sentence has the reference sentence's sentiment. */
  lemma AgreeingMembers(sentiment: Sentiment, ref: Sentence, rel: Relation, obts: seq<string>)
    ensures forall o :: o in Agreeing(sentiment, ref, rel, obts) <==> o in obts && sentiment(Sentence(rel, o)) == sentiment(ref)
  {
    FilterMembers(o => !SentsContradict(sentiment, ref, Sentence(rel, o)), obts);
  }

  // One side after steps 4 and 5, for any order of relations `rels`.

  /** Every relation's final list is a subsequence of its list before the filter. */
  lemma FinishSubseq(stop: set<string>, sentiment: Sentiment, ref: Sentence, cs: Commonsense, rels: seq<Relation>, rel: Relation)
    requires HasAll(cs, rels) && rel in cs
    ensures var f := FilterSide(sentiment, ref, cs);
      HasAll(f, rels) && rel in DedupeOver(stop, f, rels).cs && Subseq(DedupeOver(stop, f, rels).cs[rel], cs[rel])
  {
    var f := FilterSide(sentiment, ref, cs);
    assert HasAll(f, rels) by { assert f.Keys == cs.Keys; }
    AgreeingSubseq(sentiment, ref, rel, cs[rel]);
    DedupeSubseq(stop, f, rels, rel);
    SubseqTrans(DedupeOver(stop, f, rels).cs[rel], f[rel], cs[rel]);
  }

  /** Every object left has a one-object sentence with the reference sentence's sentiment. */
  lemma FinishAgrees(stop: set<string>, sentiment: Sentiment, ref: Sentence, cs: Commonsense, rels: seq<Relation>, rel: Relation, o: string)
    requires HasAll(cs, rels) && rel in cs
    requires var f := FilterSide(sentiment, ref, cs); HasAll(f, rels) && o in DedupeOver(stop, f, rels).cs[rel]
    ensures sentiment(Sentence(rel, o)) == sentiment(ref)
  {
    var f := FilterSide(sentiment, ref, cs);
    DedupeSubseq(stop, f, rels, rel);
    SubseqMembers(DedupeOver(stop, f, rels).cs[rel], f[rel], o);
    AgreeingMembers(sentiment, ref, rel, cs[rel]);
  }

  /** A list with no "none", no empty and no two resembling objects. */
  predicate Clean(stop: set<string>, obts: seq<string>) {
    AllKeepable(obts) && Distinct(stop, obts)
  }

  lemma SubseqOfClean(stop: set<string>, a: seq<string>, b: seq<string>)
    requires Subseq(a, b) && Clean(stop, b)
    ensures Clean(stop, a)
  {
    forall o | o in a ensures Keepable(o) {
      SubseqMembers(a, b, o);
    }
    SubseqPairwise(a, b, (x, y) => !ObtEq(stop, x, y));
  }

  /** Normalisation leaves every relation's list clean. */
  lemma NormaliseClean(stop: set<string>, analyse: Analyser, cs: Commonsense, rel: Relation)
    requires rel in cs
    ensures rel in Normalise(stop, analyse, cs) && Clean(stop, Normalise(stop, analyse, cs)[rel])
  {
    UniqueClean(stop, Prepared(rel, analyse, cs[rel]));
  }

  // One side after steps 4 and 5 in the priority order.

  lemma FinishPrioritySubseq(stop: set<string>, sentiment: Sentiment, ref: Sentence, cs: Commonsense, rel: Relation)
    requires Complete(cs)
    ensures Subseq(Finish(stop, sentiment, ref, cs)[rel], cs[rel])
  {
    CompleteHasAll(cs, Priority);
    FinishSubseq(stop, sentiment, ref, cs, Priority, rel);
  }

  lemma FinishPriorityAgrees(stop: set<string>, sentiment: Sentiment, ref: Sentence, cs: Commonsense, rel: Relation, o: string)
    requires Complete(cs) && o in Finish(stop, sentiment, ref, cs)[rel]
    ensures sentiment(Sentence(rel, o)) == sentiment(ref)
  {
    CompleteHasAll(cs, Priority);
    CompleteHasAll(FilterSide(sentiment, ref, cs), Priority);
    FinishAgrees(stop, sentiment, ref, cs, Priority, rel, o);
  }

  lemma FinishPriorityExclusive(stop: set<string>, sentiment: Sentiment, ref: Sentence, cs: Commonsense, r1: Relation, r2: Relation, o: string, o': string)
    requires Complete(cs) && Rank(r1) < Rank(r2)
    requires o in Finish(stop, sentiment, ref, cs)[r2] && o' in Finish(stop, sentiment, ref, cs)[r1]
    ensures !ObtEq(stop, o, o')
  {
    var f := FilterSide(sentiment, ref, cs);
    CompleteHasAll(f, Priority);
    PriorityNoRepeats();
    DedupeExclusive(stop, f, Priority, Rank(r1), Rank(r2), o, o');
  }

  // Step 2: pruning the expectation side against the event side.

  /** An expectation object that survives pruning resembles no event object of its relation. */
  lemma PrunedExcludes(stop: set<string>, evt: seq<string>, exp: seq<string>, o: string, o': string)
    requires o in ObtsDiff(stop, exp, ObtsInters(stop, evt, exp)) && o' in evt
    ensures !ObtEq(stop, o, o')
  {
    var x := ObtsInters(stop, evt, exp);
    DiffMembers(stop, exp, x);
    IntersMembers(stop, evt, exp);
    ObtEqSymmetric(stop, o, o');
  }

  /** Pruning empties a list exactly when every one of its objects resembles some event object. */
  lemma PrunedEmptyIff(stop: set<string>, evt: seq<string>, exp: seq<string>)
    ensures ObtsDiff(stop, exp, ObtsInters(stop, evt, exp)) == [] <==> forall o :: o in exp ==> ObtIn(stop, o, evt)
  {
    var x := ObtsInters(stop, evt, exp);
    var d := ObtsDiff(stop, exp, x);
    DiffMembers(stop, exp, x);
    IntersMembers(stop, evt, exp);
    forall o | o in exp ensures ObtIn(stop, o, x) <==> ObtIn(stop, o, evt) {
      if ObtIn(stop, o, x) {
        var k :| 0 <= k < |x| && ObtEq(stop, o, x[k]);
        assert x[k] in evt;
        var m :| 0 <= m < |evt| && evt[m] == x[k];
        assert ObtEq(stop, o, evt[m]);
      }
      if ObtIn(stop, o, evt) {
        var k :| 0 <= k < |evt| && ObtEq(stop, o, evt[k]);
        ObtEqSymmetric(stop, o, evt[k]);
        var n :| 0 <= n < |exp| && exp[n] == o;
        assert ObtIn(stop, evt[k], exp) by { assert ObtEq(stop, evt[k], exp[n]); }
        var m :| 0 <= m < |x| && x[m] == evt[k];
        assert ObtEq(stop, o, x[m]);
      }
    }
    if d != [] {
      assert d[0] in d;
    }
  }

  // The whole of `remove_comet_overlap`.

  /** The expectation side after steps 1 and 2, when it has a list for every event relation. */
  function PrunedSide(stop: set<string>, analyse: Analyser, inCs: Commonsense, expCs: Commonsense): (r: Commonsense)
    requires inCs.Keys <= expCs.Keys
    ensures r.Keys == expCs.Keys
    ensures forall rel :: rel in r ==> Subseq(r[rel], Normalise(stop, analyse, expCs)[rel])
  {
    var inN, expN := Normalise(stop, analyse, inCs), Normalise(stop, analyse, expCs);
    var p := Prune(stop, inN, expN);
    forall rel | rel in p ensures Subseq(p[rel], expN[rel]) {
      if rel in inN {
        DiffSubseq(stop, expN[rel], ObtsInters(stop, inN[rel], expN[rel]));
      } else {
        SubseqRefl(expN[rel]);
      }
    }
    p
  }

  /** Steps 4 and 5 succeed on a complete event side with xAttr objects, finishing each side against its own reference. */
  lemma FinishBothOk(stop: set<string>, sentiment: Sentiment, inN: Commonsense, exp: Option<Commonsense>)
    requires exp.Some? ==> inN.Keys <= exp.value.Keys && XAttr in exp.value && exp.value[XAttr] != []
    requires FinishBoth(stop, sentiment, inN, exp).Ok?
    ensures Complete(inN) && inN[XAttr] != []
    ensures var out := FinishBoth(stop, sentiment, inN, exp).value;
      out.0 == Finish(stop, sentiment, RefSentence(inN[XAttr]), inN)
      && (out.1.Some? <==> exp.Some?)
      && (exp.Some? ==> Complete(exp.value) && out.1.value == Finish(stop, sentiment, RefSentence(exp.value[XAttr]), exp.value))
  {
    if exp.Some? {
      assert Complete(exp.value) by {
        forall r: Relation ensures r in exp.value { assert r in inN.Keys; }
      }
    }
  }

  /** A kept expectation side is the pruned one. */
  lemma ExpectationSideKept(stop: set<string>, analyse: Analyser, inCs: Commonsense, expCs: Option<Commonsense>)
    requires ExpectationSide(stop, analyse, Normalise(stop, analyse, inCs), expCs).Ok?
    requires ExpectationSide(stop, analyse, Normalise(stop, analyse, inCs), expCs).value.Some?
    ensures expCs.Some? && inCs.Keys <= expCs.value.Keys
    ensures ExpectationSide(stop, analyse, Normalise(stop, analyse, inCs), expCs).value.value == PrunedSide(stop, analyse, inCs, expCs.value)
  {
  }

  /** A successful run is the two finished sides: the event side, and the pruned expectation side when it is kept. */
  lemma RemoveOverlapSides(stop: set<string>, analyse: Analyser, sentiment: Sentiment, inCs: Commonsense, expCs: Option<Commonsense>)
    requires RemoveOverlap(stop, analyse, sentiment, inCs, expCs).Ok?
    ensures var inN, out := Normalise(stop, analyse, inCs), RemoveOverlap(stop, analyse, sentiment, inCs, expCs).value;
      Complete(inN) && inN[XAttr] != []
      && out.0 == Finish(stop, sentiment, RefSentence(inN[XAttr]), inN)
      && (out.1.Some? ==>
            expCs.Some? && expCs.value.Keys == inCs.Keys
            && var p := PrunedSide(stop, analyse, inCs, expCs.value);
            Complete(p) && p[XAttr] != [] && out.1.value == Finish(stop, sentiment, RefSentence(p[XAttr]), p))
  {
    var inN := Normalise(stop, analyse, inCs);
    ExpectationSideShape(stop, analyse, inN, expCs);
    var exp := ExpectationSide(stop, analyse, inN, expCs).value;
    assert RemoveOverlap(stop, analyse, sentiment, inCs, expCs) == FinishBoth(stop, sentiment, inN, exp);
    FinishBothOk(stop, sentiment, inN, exp);
    if exp.Some? {
      ExpectationSideKept(stop, analyse, inCs, expCs);
      assert expCs.value.Keys == inCs.Keys by {
        forall r: Relation ensures r in expCs.value && r in inCs { assert r in inN && r in inN.Keys; }
      }
    }
  }

  /**
    A run fails exactly when a relation is missing from the event side, the
    event side has no xAttr object left after normalisation, or the
    expectation side lacks xAttr or, having xAttr objects, other relations
    than the event side.
  */
  lemma RemoveOverlapOkIff(stop: set<string>, analyse: Analyser, sentiment: Sentiment, inCs: Commonsense, expCs: Option<Commonsense>)
    ensures RemoveOverlap(stop, analyse, sentiment, inCs, expCs).Ok? <==>
      Complete(inCs) && Normalise(stop, analyse, inCs)[XAttr] != []
      && (expCs.Some? ==> XAttr in expCs.value && (expCs.value[XAttr] != [] ==> expCs.value.Keys == inCs.Keys))
  {
    var inN := Normalise(stop, analyse, inCs);
    assert Complete(inN) <==> Complete(inCs) by {
      assert forall r: Relation :: r in inN <==> r in inCs;
    }
  }

  /**
    The IndexError of `gen_sentence` on an empty xAttr list, raised once the
    expectation side passed its lookups: it has xAttr and, when it has xAttr
    objects, a list for every event relation and no objects left under a
    relation the event lacks.
  */
  lemma RemoveOverlapIndexError(stop: set<string>, analyse: Analyser, sentiment: Sentiment, inCs: Commonsense, expCs: Option<Commonsense>)
    ensures RemoveOverlap(stop, analyse, sentiment, inCs, expCs) == Err(IndexOutOfRange) <==>
      XAttr in inCs && Normalise(stop, analyse, inCs)[XAttr] == []
      && (expCs.Some? ==>
            XAttr in expCs.value
            && (expCs.value[XAttr] != [] ==> PruneLookupsSucceed(Normalise(stop, analyse, inCs), Normalise(stop, analyse, expCs.value))))
  {
  }

  /**
    An expectation relation the event lacks raises no KeyError when it has no
    objects: with an event xAttr list of only "none", the run reaches the
    reference sentence and fails there with IndexError.
  */
  lemma EmptyExtraRelationNotLookedUp(stop: set<string>, analyse: Analyser, sentiment: Sentiment)
    ensures RemoveOverlap(stop, analyse, sentiment, map[XAttr := ["none"]],
                          Some(map[XAttr := ["a"], XEffect := []])) == Err(IndexOutOfRange)
  {
    var inCs, expCs := map[XAttr := ["none"]], map[XAttr := ["a"], XEffect := []];
    assert Prepared(XAttr, analyse, ["none"]) == [] by {
      assert ["none"][..0] == [];
    }
    assert Normalise(stop, analyse, inCs)[XAttr] == [];
    assert Prepared(XEffect, analyse, []) == [];
    var expN := Normalise(stop, analyse, expCs);
    assert expN[XEffect] == [];
    assert expN.Keys == {XAttr, XEffect};
    assert Normalise(stop, analyse, inCs).Keys == {XAttr};
    RemoveOverlapIndexError(stop, analyse, sentiment, inCs, Some(expCs));
  }

  /** The event side's result never depends on the expectation side. */
  lemma EventIgnoresExpectation(stop: set<string>, analyse: Analyser, sentiment: Sentiment, inCs: Commonsense, expCs: Option<Commonsense>)
    requires RemoveOverlap(stop, analyse, sentiment, inCs, expCs).Ok?
    ensures RemoveOverlap(stop, analyse, sentiment, inCs, None).Ok?
    ensures RemoveOverlap(stop, analyse, sentiment, inCs, None).value
         == (RemoveOverlap(stop, analyse, sentiment, inCs, expCs).value.0, None)
  {
    RemoveOverlapSides(stop, analyse, sentiment, inCs, expCs);
  }

  /**
    The expectation side is dropped exactly when there is none, it has no
    xAttr objects, or every one of its normalised xAttr objects resembles a
    normalised xAttr object of the event.
  */
  lemma ExpectationDropped(stop: set<string>, analyse: Analyser, sentiment: Sentiment, inCs: Commonsense, expCs: Option<Commonsense>)
    requires RemoveOverlap(stop, analyse, sentiment, inCs, expCs).Ok?
    ensures RemoveOverlap(stop, analyse, sentiment, inCs, expCs).value.1.None? <==>
      expCs.None? || expCs.value[XAttr] == []
      || forall o :: o in Normalise(stop, analyse, expCs.value)[XAttr] ==> ObtIn(stop, o, Normalise(stop, analyse, inCs)[XAttr])
  {
    if expCs.Some? && expCs.value[XAttr] != [] {
      var inN, expN := Normalise(stop, analyse, inCs), Normalise(stop, analyse, expCs.value);
      PrunedEmptyIff(stop, inN[XAttr], expN[XAttr]);
    }
  }

  /** Every event relation's final list is a clean subsequence of its normalised objects. */
  lemma EventClean(stop: set<string>, analyse: Analyser, sentiment: Sentiment, inCs: Commonsense, expCs: Option<Commonsense>, rel: Relation)
    requires RemoveOverlap(stop, analyse, sentiment, inCs, expCs).Ok?
    ensures var out := RemoveOverlap(stop, analyse, sentiment, inCs, expCs).value.0;
      rel in out && Subseq(out[rel], Normalise(stop, analyse, inCs)[rel]) && Clean(stop, out[rel])
  {
    RemoveOverlapSides(stop, analyse, sentiment, inCs, expCs);
    var inN := Normalise(stop, analyse, inCs);
    FinishPrioritySubseq(stop, sentiment, RefSentence(inN[XAttr]), inN, rel);
    NormaliseClean(stop, analyse, inCs, rel);
    SubseqOfClean(stop, Finish(stop, sentiment, RefSentence(inN[XAttr]), inN)[rel], inN[rel]);
  }

  /** Every kept expectation relation's final list is a clean subsequence of its normalised objects. */
  lemma ExpectationClean(stop: set<string>, analyse: Analyser, sentiment: Sentiment, inCs: Commonsense, expCs: Option<Commonsense>, rel: Relation)
    requires RemoveOverlap(stop, analyse, sentiment, inCs, expCs).Ok?
    requires RemoveOverlap(stop, analyse, sentiment, inCs, expCs).value.1.Some?
    ensures expCs.Some? && rel in expCs.value
    ensures var out := RemoveOverlap(stop, analyse, sentiment, inCs, expCs).value.1.value;
      rel in out && Subseq(out[rel], Normalise(stop, analyse, expCs.value)[rel]) && Clean(stop, out[rel])
  {
    RemoveOverlapSides(stop, analyse, sentiment, inCs, expCs);
    var p := PrunedSide(stop, analyse, inCs, expCs.value);
    var expN := Normalise(stop, analyse, expCs.value);
    var fin := Finish(stop, sentiment, RefSentence(p[XAttr]), p);
    FinishPrioritySubseq(stop, sentiment, RefSentence(p[XAttr]), p, rel);
    SubseqTrans(fin[rel], p[rel], expN[rel]);
    NormaliseClean(stop, analyse, expCs.value, rel);
    SubseqOfClean(stop, fin[rel], expN[rel]);
  }

  /** Every event object left agrees in sentiment with the event's xAttr reference sentence. */
  lemma EventAgrees(stop: set<string>, analyse: Analyser, sentiment: Sentiment, inCs: Commonsense, expCs: Option<Commonsense>, rel: Relation, o: string)
    requires RemoveOverlap(stop, analyse, sentiment, inCs, expCs).Ok?
    requires rel in RemoveOverlap(stop, analyse, sentiment, inCs, expCs).value.0
    requires o in RemoveOverlap(stop, analyse, sentiment, inCs, expCs).value.0[rel]
    ensures var inN := Normalise(stop, analyse, inCs);
      XAttr in inN && inN[XAttr] != [] && sentiment(Sentence(rel, o)) == sentiment(RefSentence(inN[XAttr]))
  {
    RemoveOverlapSides(stop, analyse, sentiment, inCs, expCs);
    var inN := Normalise(stop, analyse, inCs);
    FinishPriorityAgrees(stop, sentiment, RefSentence(inN[XAttr]), inN, rel, o);
  }

  /** Every expectation object left agrees in sentiment with the pruned expectation's xAttr reference sentence. */
  lemma ExpectationAgrees(stop: set<string>, analyse: Analyser, sentiment: Sentiment, inCs: Commonsense, expCs: Option<Commonsense>, rel: Relation, o: string)
    requires RemoveOverlap(stop, analyse, sentiment, inCs, expCs).Ok?
    requires RemoveOverlap(stop, analyse, sentiment, inCs, expCs).value.1.Some?
    requires rel in RemoveOverlap(stop, analyse, sentiment, inCs, expCs).value.1.value
    requires o in RemoveOverlap(stop, analyse, sentiment, inCs, expCs).value.1.value[rel]
    ensures expCs.Some? && expCs.value.Keys == inCs.Keys
    ensures var p := PrunedSide(stop, analyse, inCs, expCs.value);
      XAttr in p && p[XAttr] != [] && sentiment(Sentence(rel, o)) == sentiment(RefSentence(p[XAttr]))
  {
    RemoveOverlapSides(stop, analyse, sentiment, inCs, expCs);
    var p := PrunedSide(stop, analyse, inCs, expCs.value);
    FinishPriorityAgrees(stop, sentiment, RefSentence(p[XAttr]), p, rel, o);
  }

  /** On either side, no object resembles one kept under a relation earlier in the priority order. */
  lemma PriorityExclusive(stop: set<string>, analyse: Analyser, sentiment: Sentiment, inCs: Commonsense, expCs: Option<Commonsense>,
                          side: Commonsense, r1: Relation, r2: Relation, o: string, o': string)
    requires RemoveOverlap(stop, analyse, sentiment, inCs, expCs).Ok?
    requires var out := RemoveOverlap(stop, analyse, sentiment, inCs, expCs).value;
      side == out.0 || (out.1.Some? && side == out.1.value)
    requires Rank(r1) < Rank(r2) && r1 in side && r2 in side && o in side[r2] && o' in side[r1]
    ensures !ObtEq(stop, o, o')
  {
    RemoveOverlapSides(stop, analyse, sentiment, inCs, expCs);
    var out := RemoveOverlap(stop, analyse, sentiment, inCs, expCs).value;
    var inN := Normalise(stop, analyse, inCs);
    if side == out.0 {
      FinishPriorityExclusive(stop, sentiment, RefSentence(inN[XAttr]), inN, r1, r2, o, o');
    } else {
      var p := PrunedSide(stop, analyse, inCs, expCs.value);
      FinishPriorityExclusive(stop, sentiment, RefSentence(p[XAttr]), p, r1, r2, o, o');
    }
  }

  /** No expectation object left resembles a normalised event object of the same relation. */
  lemma ExpectationDisjoint(stop: set<string>, analyse: Analyser, sentiment: Sentiment, inCs: Commonsense, expCs: Option<Commonsense>,
                            rel: Relation, o: string, o': string)
    requires RemoveOverlap(stop, analyse, sentiment, inCs, expCs).Ok?
    requires RemoveOverlap(stop, analyse, sentiment, inCs, expCs).value.1.Some?
    requires rel in RemoveOverlap(stop, analyse, sentiment, inCs, expCs).value.1.value
    requires o in RemoveOverlap(stop, analyse, sentiment, inCs, expCs).value.1.value[rel]
    requires rel in Normalise(stop, analyse, inCs) && o' in Normalise(stop, analyse, inCs)[rel]
    ensures !ObtEq(stop, o, o')
  {
    RemoveOverlapSides(stop, analyse, sentiment, inCs, expCs);
    var inN, expN := Normalise(stop, analyse, inCs), Normalise(stop, analyse, expCs.value);
    var p := PrunedSide(stop, analyse, inCs, expCs.value);
    var fin := Finish(stop, sentiment, RefSentence(p[XAttr]), p);
    FinishPrioritySubseq(stop, sentiment, RefSentence(p[XAttr]), p, rel);
    SubseqMembers(fin[rel], p[rel], o);
    PrunedExcludes(stop, inN[rel], expN[rel], o, o');
  }
}
