/**
  The post-processing at the end of the legacy `build_commonsense`: the
  generator's beams for each relation lose their "none" entries, and every
  relation with beams left is filed, in input order, under the prior or the
  posterior relations. The generator itself is not part of this model; its
  output is given as the sequence of (relation, beams) pairs in key order.
*/
module LegacyBuilder {
  import opened Seqs

  /** A relation name and its beams, as `outputs[R]['beams']`. */
  type Beams = (string, seq<string>)

  /** `dict(priors=…, posteriors=…)`: always exactly these two lists. */
  datatype Inferences = Inferences(priors: seq<Beams>, posteriors: seq<Beams>)

  const PriorRels: set<string> := {"xIntent", "xNeed", "xAttr"}
  const PosteriorRels: set<string> := {"xReact", "xWant", "xEffect", "oReact", "oEffect", "oWant"}

  /** A beam the comprehension keeps. */
  predicate NotNone(b: string) {
    b != "none"
  }

  /** `[b for b in beams if b != 'none']`. */
  function Beamed(beams: seq<string>): seq<string> {
    Filter(NotNone, beams)
  }

  /** Specification of the loop over `outputs.keys()`. */
  function Partitioned(outputs: seq<Beams>): Inferences
    decreases |outputs|
  {
    if outputs == [] then Inferences([], [])
    else
      var p := Partitioned(outputs[..|outputs| - 1]);
      var rel, beams := outputs[|outputs| - 1].0, Beamed(outputs[|outputs| - 1].1);
      if |beams| > 0 && rel in PriorRels then p.(priors := p.priors + [(rel, beams)])
      else if |beams| > 0 && rel in PosteriorRels then p.(posteriors := p.posteriors + [(rel, beams)])
      else p
  }

  /** Lines 64-75 of `build_commonsense`. */
  method BuildCommonsense(outputs: seq<Beams>) returns (r: Inferences)
    ensures r == Partitioned(outputs)
  {
    var priors: seq<Beams>, posteriors: seq<Beams> := [], [];
    for i := 0 to |outputs|
      invariant Inferences(priors, posteriors) == Partitioned(outputs[..i])
    {
      var rel := outputs[i].0;
      var beams := Beamed(outputs[i].1);
      assert outputs[..i + 1][..i] == outputs[..i];
      if |beams| > 0 {
        if rel in PriorRels {
          priors := priors + [(rel, beams)];
        } else if rel in PosteriorRels {
          posteriors := posteriors + [(rel, beams)];
        }
      }
    }
    assert outputs[..|outputs|] == outputs;
    r := Inferences(priors, posteriors);
  }

  // A reference definition: each list is a filter of the cleaned outputs.

  /** Every pair with its "none" beams removed, in order. */
  function Cleaned(outputs: seq<Beams>): (r: seq<Beams>)
    ensures |r| == |outputs|
    decreases |outputs|
  {
    if outputs == [] then []
    else Cleaned(outputs[..|outputs| - 1]) + [(outputs[|outputs| - 1].0, Beamed(outputs[|outputs| - 1].1))]
  }

  /** A cleaned pair filed under the priors. */
  predicate IsPrior(p: Beams) {
    |p.1| > 0 && p.0 in PriorRels
  }

  /** A cleaned pair filed under the posteriors: a posterior relation that is not also a prior one. */
  predicate IsPosterior(p: Beams) {
    |p.1| > 0 && p.0 !in PriorRels && p.0 in PosteriorRels
  }

  lemma {:induction false} CleanedIndex(outputs: seq<Beams>, i: nat)
    requires i < |outputs|
    ensures Cleaned(outputs)[i] == (outputs[i].0, Beamed(outputs[i].1))
    decreases |outputs|
  {
    var n := |outputs| - 1;
    if i < n {
      CleanedIndex(outputs[..n], i);
    }
  }

  /** The loop files exactly the cleaned pairs the two filters select, in input order. */
  lemma {:induction false} PartitionedIsFilter(outputs: seq<Beams>)
    ensures Partitioned(outputs).priors == Filter(IsPrior, Cleaned(outputs))
    ensures Partitioned(outputs).posteriors == Filter(IsPosterior, Cleaned(outputs))
    decreases |outputs|
  {
    if outputs != [] {
      var init := outputs[..|outputs| - 1];
      PartitionedIsFilter(init);
      var c := Cleaned(outputs);
      assert c[..|c| - 1] == Cleaned(init);
    }
  }

  /** No list left contains "none" or is empty. */
  lemma NoNoneNoEmpty(outputs: seq<Beams>, p: Beams)
    requires p in Partitioned(outputs).priors || p in Partitioned(outputs).posteriors
    ensures p.1 != [] && "none" !in p.1
  {
    PartitionedIsFilter(outputs);
    var c := Cleaned(outputs);
    FilterMembers(IsPrior, c);
    FilterMembers(IsPosterior, c);
    var i :| 0 <= i < |c| && c[i] == p;
    CleanedIndex(outputs, i);
    FilterMembers(NotNone, outputs[i].1);
  }

  /**
    A pair is among the priors exactly when some input relation is a prior
    relation with beams other than "none", and then it carries those beams.
  */
  lemma PriorsExactly(outputs: seq<Beams>, p: Beams)
    ensures p in Partitioned(outputs).priors <==>
      exists i :: 0 <= i < |outputs| && p == (outputs[i].0, Beamed(outputs[i].1)) && IsPrior(p)
  {
    PartitionedIsFilter(outputs);
    var c := Cleaned(outputs);
    FilterMembers(IsPrior, c);
    if p in c {
      var i :| 0 <= i < |c| && c[i] == p;
      CleanedIndex(outputs, i);
    }
    if exists i :: 0 <= i < |outputs| && p == (outputs[i].0, Beamed(outputs[i].1)) && IsPrior(p) {
      var i :| 0 <= i < |outputs| && p == (outputs[i].0, Beamed(outputs[i].1)) && IsPrior(p);
      CleanedIndex(outputs, i);
      assert c[i] == p;
    }
  }

  /**
    A pair is among the posteriors exactly when some input relation is a
    posterior relation with beams other than "none", and then it carries
    those beams.
  */
  lemma PosteriorsExactly(outputs: seq<Beams>, p: Beams)
    ensures p in Partitioned(outputs).posteriors <==>
      exists i :: 0 <= i < |outputs| && p == (outputs[i].0, Beamed(outputs[i].1)) && IsPosterior(p)
  {
    PartitionedIsFilter(outputs);
    var c := Cleaned(outputs);
    FilterMembers(IsPosterior, c);
    if p in c {
      var i :| 0 <= i < |c| && c[i] == p;
      CleanedIndex(outputs, i);
    }
    if exists i :: 0 <= i < |outputs| && p == (outputs[i].0, Beamed(outputs[i].1)) && IsPosterior(p) {
      var i :| 0 <= i < |outputs| && p == (outputs[i].0, Beamed(outputs[i].1)) && IsPosterior(p);
      CleanedIndex(outputs, i);
      assert c[i] == p;
    }
  }

  /** The two relation sets are disjoint, so no relation lands in both lists. */
  lemma RelationSetsDisjoint()
    ensures PriorRels * PosteriorRels == {}
  {
    assert forall r :: r in PriorRels ==> r == "xIntent" || r == "xNeed" || r == "xAttr";
  }

  /** A relation in neither set appears in neither list. */
  lemma UnknownDropped(outputs: seq<Beams>, p: Beams)
    requires p.0 !in PriorRels && p.0 !in PosteriorRels
    ensures p !in Partitioned(outputs).priors && p !in Partitioned(outputs).posteriors
  {
    PartitionedIsFilter(outputs);
    FilterMembers(IsPrior, Cleaned(outputs));
    FilterMembers(IsPosterior, Cleaned(outputs));
  }

  /** Both lists keep the input's relation order, and every beam list keeps its beams' order. */
  lemma OrderPreserved(outputs: seq<Beams>)
    ensures Subseq(Partitioned(outputs).priors, Cleaned(outputs))
    ensures Subseq(Partitioned(outputs).posteriors, Cleaned(outputs))
    ensures forall i :: 0 <= i < |outputs| ==> Subseq(Cleaned(outputs)[i].1, outputs[i].1)
  {
    PartitionedIsFilter(outputs);
    FilterSubseq(IsPrior, Cleaned(outputs));
    FilterSubseq(IsPosterior, Cleaned(outputs));
    forall i | 0 <= i < |outputs| ensures Subseq(Cleaned(outputs)[i].1, outputs[i].1) {
      CleanedIndex(outputs, i);
      FilterSubseq(NotNone, outputs[i].1);
    }
  }

  /** Beams "a", "none", "b" for xAttr and only "none" for xWant: xAttr keeps "a", "b"; xWant is gone. */
  lemma NoneOnlyRelationDropped()
    ensures Partitioned([("xAttr", ["a", "none", "b"]), ("xWant", ["none"])]) == Inferences([("xAttr", ["a", "b"])], [])
  {
    var outputs := [("xAttr", ["a", "none", "b"]), ("xWant", ["none"])];
    assert outputs[..1] == [("xAttr", ["a", "none", "b"])];
    assert ["a", "none", "b"][..2] == ["a", "none"] && ["a", "none"][..1] == ["a"] && ["a"][..0] == [];
    assert Filter(NotNone, ["a"]) == ["a"];
    assert Filter(NotNone, ["a", "none"]) == ["a"];
    assert Beamed(["a", "none", "b"]) == ["a", "b"];
  }
}
