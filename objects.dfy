/**
  Commonsense objects (short phrases such as "win the race") and the
  fuzzy, stop-word-insensitive set operations the builder applies to lists
  of them, plus the sentence templates built from them.
*/
module CometObjects {
  import opened Wrappers
  import opened Text
  import opened Seqs
  import opened Relations

  /** The stop-word list in use: the tagger's English stop words with "stay" added. */
  function StopWords(base: set<string>): (stop: set<string>)
    ensures "stay" in stop && base <= stop
    ensures forall w :: w in stop ==> w in base || w == "stay"
  {
    base + {"stay"}
  }

  /** The words of `ws` that are not stop words, in order. */
  function ContentWords(stop: set<string>, ws: seq<string>): (r: seq<string>)
    decreases |ws|
  {
    if ws == [] then []
    else ContentWords(stop, ws[..|ws| - 1]) + (if ws[|ws| - 1] in stop then [] else [ws[|ws| - 1]])
  }

  /** An object with its stop words removed and its words re-joined with single spaces. */
  function Stripped(stop: set<string>, o: string): string {
    Join(" ", ContentWords(stop, Split(o)))
  }

  /** `obt_eq`: after stop-word removal, equal, or one a prefix or a suffix of the other. */
  predicate ObtEq(stop: set<string>, o1: string, o2: string) {
    var a, b := Stripped(stop, o1), Stripped(stop, o2);
    a == b || StartsWith(a, b) || StartsWith(b, a) || EndsWith(a, b) || EndsWith(b, a)
  }

  /** `obt_in`: `obt` is fuzzily equal to some member of `others`. */
  predicate ObtIn(stop: set<string>, obt: string, others: seq<string>) {
    exists i :: 0 <= i < |others| && ObtEq(stop, obt, others[i])
  }

  /** `obts_inters`: the members of `obts1` that are in `obts2`, in order. */
  function ObtsInters(stop: set<string>, obts1: seq<string>, obts2: seq<string>): seq<string>
    decreases |obts1|
  {
    if obts1 == [] then []
    else
      var last := obts1[|obts1| - 1];
      ObtsInters(stop, obts1[..|obts1| - 1], obts2) + (if ObtIn(stop, last, obts2) then [last] else [])
  }

  /** `obts_diff`: the members of `obts1` that are not in `obts2`, in order. */
  function ObtsDiff(stop: set<string>, obts1: seq<string>, obts2: seq<string>): seq<string>
    decreases |obts1|
  {
    if obts1 == [] then []
    else
      var last := obts1[|obts1| - 1];
      ObtsDiff(stop, obts1[..|obts1| - 1], obts2) + (if ObtIn(stop, last, obts2) then [] else [last])
  }

  /** An object `obts_unique` keeps when nothing kept so far resembles it. */
  predicate Keepable(o: string) {
    o != "none" && |o| > 0
  }

  /** Specification of `obts_unique`: scan left to right, keep an object unless it is "none", empty or in what is kept. */
  function Unique(stop: set<string>, obts: seq<string>): seq<string>
    decreases |obts|
  {
    if obts == [] then []
    else
      var kept, o := Unique(stop, obts[..|obts| - 1]), obts[|obts| - 1];
      if Keepable(o) && !ObtIn(stop, o, kept) then kept + [o] else kept
  }

  /** `obts_unique`. */
  method ObtsUnique(stop: set<string>, obts: seq<string>) returns (unique: seq<string>)
    ensures unique == Unique(stop, obts)
  {
    unique := [];
    for i := 0 to |obts|
      invariant unique == Unique(stop, obts[..i])
    {
      var obt := obts[i];
      assert obts[..i + 1][..i] == obts[..i];
      if obt != "none" && |obt| > 0 && !ObtIn(stop, obt, unique) {
        unique := unique + [obt];
      }
    }
    assert obts[..|obts|] == obts;
  }

  /** No two members of a list are fuzzily equal, in either order. */
  predicate Distinct(stop: set<string>, obts: seq<string>) {
    forall i, j :: 0 <= i < j < |obts| ==> !ObtEq(stop, obts[i], obts[j])
  }

  /** Every member of a list is an object `obts_unique` keeps. */
  predicate AllKeepable(obts: seq<string>) {
    forall i :: 0 <= i < |obts| ==> Keepable(obts[i])
  }

  // Fuzzy equality.

  lemma ObtEqReflexive(stop: set<string>, o: string)
    ensures ObtEq(stop, o, o)
  {
  }

  lemma ObtEqSymmetric(stop: set<string>, o1: string, o2: string)
    ensures ObtEq(stop, o1, o2) == ObtEq(stop, o2, o1)
  {
  }

  lemma {:induction false} ContentWordsEmpty(stop: set<string>, ws: seq<string>)
    requires forall i :: 0 <= i < |ws| ==> ws[i] in stop
    ensures ContentWords(stop, ws) == []
  {
    if ws != [] {
      ContentWordsEmpty(stop, ws[..|ws| - 1]);
    }
  }

  /** An object made only of stop words is fuzzily equal to every object. */
  lemma AllStopWordsEqualsEverything(stop: set<string>, o: string, other: string)
    requires forall i :: 0 <= i < |Split(o)| ==> Split(o)[i] in stop
    ensures ObtEq(stop, o, other)
  {
    ContentWordsEmpty(stop, Split(o));
    assert Stripped(stop, o) == [];
  }

  /** Fuzzy equality ignores how the words of an object are spaced. */
  lemma SpacingIgnored(stop: set<string>, o1: string, o2: string)
    ensures ObtEq(stop, Join(" ", Split(o1)), o2) == ObtEq(stop, o1, o2)
  {
    SplitJoin(Split(o1));
  }

  /** Fuzzy equality is not transitive: "ab" resembles "a" and "b", which do not resemble each other. */
  lemma ObtEqNotTransitive()
    ensures ObtEq({}, "a", "ab") && ObtEq({}, "ab", "b") && !ObtEq({}, "a", "b")
  {
    OneWordStripped("a");
    OneWordStripped("b");
    OneWordStripped("ab");
  }

  lemma OneWordStripped(w: string)
    requires IsWord(w)
    ensures Stripped({}, w) == w
  {
    SplitJoin([w]);
    assert Join(" ", [w]) == w;
    assert ContentWords({}, [w]) == [w];
  }

  // Intersection and difference.

  lemma {:induction false} IntersMembers(stop: set<string>, obts1: seq<string>, obts2: seq<string>)
    ensures forall o :: o in ObtsInters(stop, obts1, obts2) <==> o in obts1 && ObtIn(stop, o, obts2)
    decreases |obts1|
  {
    if obts1 != [] {
      var init := obts1[..|obts1| - 1];
      IntersMembers(stop, init, obts2);
      assert obts1 == init + [obts1[|obts1| - 1]];
    }
  }

  lemma {:induction false} DiffMembers(stop: set<string>, obts1: seq<string>, obts2: seq<string>)
    ensures forall o :: o in ObtsDiff(stop, obts1, obts2) <==> o in obts1 && !ObtIn(stop, o, obts2)
    decreases |obts1|
  {
    if obts1 != [] {
      var init := obts1[..|obts1| - 1];
      DiffMembers(stop, init, obts2);
      assert obts1 == init + [obts1[|obts1| - 1]];
    }
  }

  lemma {:induction false} IntersSubseq(stop: set<string>, obts1: seq<string>, obts2: seq<string>)
    ensures Subseq(ObtsInters(stop, obts1, obts2), obts1)
    decreases |obts1|
  {
    if obts1 == [] {
      SubseqRefl(obts1);
    } else {
      var init, last := obts1[..|obts1| - 1], obts1[|obts1| - 1];
      IntersSubseq(stop, init, obts2);
      assert obts1 == init + [last];
      var i := ObtsInters(stop, init, obts2);
      if ObtIn(stop, last, obts2) {
        assert ObtsInters(stop, obts1, obts2) == i + [last];
        SubseqAppendBoth(i, init, last);
      } else {
        assert ObtsInters(stop, obts1, obts2) == i;
        SubseqExtend(i, init, last);
      }
    }
  }

  lemma {:induction false} DiffSubseq(stop: set<string>, obts1: seq<string>, obts2: seq<string>)
    ensures Subseq(ObtsDiff(stop, obts1, obts2), obts1)
    decreases |obts1|
  {
    if obts1 == [] {
      SubseqRefl(obts1);
    } else {
      var init, last := obts1[..|obts1| - 1], obts1[|obts1| - 1];
      DiffSubseq(stop, init, obts2);
      assert obts1 == init + [last];
      var d := ObtsDiff(stop, init, obts2);
      if ObtIn(stop, last, obts2) {
        assert ObtsDiff(stop, obts1, obts2) == d;
        SubseqExtend(d, init, last);
      } else {
        assert ObtsDiff(stop, obts1, obts2) == d + [last];
        SubseqAppendBoth(d, init, last);
      }
    }
  }

  lemma {:induction false} IntersDiffCounts(stop: set<string>, obts1: seq<string>, obts2: seq<string>)
    ensures multiset(ObtsInters(stop, obts1, obts2)) + multiset(ObtsDiff(stop, obts1, obts2)) == multiset(obts1)
    decreases |obts1|
  {
    if obts1 != [] {
      var init, last := obts1[..|obts1| - 1], obts1[|obts1| - 1];
      IntersDiffCounts(stop, init, obts2);
      assert obts1 == init + [last];
      assert multiset(obts1) == multiset(init) + multiset{last};
      var i, d := ObtsInters(stop, init, obts2), ObtsDiff(stop, init, obts2);
      if ObtIn(stop, last, obts2) {
        assert ObtsInters(stop, obts1, obts2) == i + [last];
        assert ObtsDiff(stop, obts1, obts2) == d;
        assert multiset(i + [last]) == multiset(i) + multiset{last};
      } else {
        assert ObtsInters(stop, obts1, obts2) == i;
        assert ObtsDiff(stop, obts1, obts2) == d + [last];
        assert multiset(d + [last]) == multiset(d) + multiset{last};
      }
    }
  }

  /**
    Intersection and difference partition `obts1`: both keep their members
    in order, and together they hold each member of `obts1` exactly as often.
  */
  lemma IntersDiffPartition(stop: set<string>, obts1: seq<string>, obts2: seq<string>)
    ensures Subseq(ObtsInters(stop, obts1, obts2), obts1)
    ensures Subseq(ObtsDiff(stop, obts1, obts2), obts1)
    ensures multiset(ObtsInters(stop, obts1, obts2)) + multiset(ObtsDiff(stop, obts1, obts2)) == multiset(obts1)
  {
    IntersSubseq(stop, obts1, obts2);
    DiffSubseq(stop, obts1, obts2);
    IntersDiffCounts(stop, obts1, obts2);
  }

  /** Members of a subsequence of a difference are still not in `obts2`. */
  lemma DiffExcludes(stop: set<string>, obts1: seq<string>, obts2: seq<string>, o: string, y: string)
    requires o in ObtsDiff(stop, obts1, obts2) && y in obts2
    ensures !ObtEq(stop, o, y)
  {
    DiffMembers(stop, obts1, obts2);
  }

  // Deduplication.

  lemma {:induction false} UniqueSubseq(stop: set<string>, obts: seq<string>)
    ensures Subseq(Unique(stop, obts), obts)
    decreases |obts|
  {
    if obts == [] {
      SubseqRefl(obts);
    } else {
      var init, o := obts[..|obts| - 1], obts[|obts| - 1];
      UniqueSubseq(stop, init);
      assert obts == init + [o];
      var kept := Unique(stop, init);
      if Keepable(o) && !ObtIn(stop, o, kept) {
        SubseqAppendBoth(kept, init, o);
      } else {
        SubseqExtend(kept, init, o);
      }
    }
  }

  lemma {:induction false} UniqueClean(stop: set<string>, obts: seq<string>)
    ensures AllKeepable(Unique(stop, obts)) && Distinct(stop, Unique(stop, obts))
    decreases |obts|
  {
    if obts != [] {
      var init, o := obts[..|obts| - 1], obts[|obts| - 1];
      UniqueClean(stop, init);
      var kept := Unique(stop, init);
      if Keepable(o) && !ObtIn(stop, o, kept) {
        var u := kept + [o];
        forall i, j | 0 <= i < j < |u| ensures !ObtEq(stop, u[i], u[j]) {
          if j == |kept| {
            ObtEqSymmetric(stop, u[i], o);
            assert !ObtEq(stop, o, kept[i]);
          }
        }
      }
    }
  }

  /** `Unique(obts[..k])` is a prefix of `Unique(obts)`: what is kept is never given up. */
  lemma {:induction false} UniqueGrows(stop: set<string>, obts: seq<string>, k: nat)
    requires k <= |obts|
    ensures Unique(stop, obts[..k]) <= Unique(stop, obts)
    decreases |obts| - k
  {
    if k < |obts| {
      UniqueGrows(stop, obts, k + 1);
      var p := obts[..k + 1];
      assert p[..|p| - 1] == obts[..k];
    } else {
      assert obts[..k] == obts;
    }
  }

  /**
    `obts_unique` loses nothing it should keep: every keepable input object
    resembles an object in the result, itself or one kept before it.
  */
  lemma {:induction false} UniqueCovers(stop: set<string>, obts: seq<string>, k: nat)
    requires k < |obts| && Keepable(obts[k])
    ensures ObtIn(stop, obts[k], Unique(stop, obts))
  {
    var p := obts[..k + 1];
    assert p[..|p| - 1] == obts[..k] && p[|p| - 1] == obts[k];
    var before := Unique(stop, obts[..k]);
    UniqueGrows(stop, obts, k + 1);
    UniqueGrows(stop, obts, k);
    var u := Unique(stop, obts);
    if ObtIn(stop, obts[k], before) {
      var i :| 0 <= i < |before| && ObtEq(stop, obts[k], before[i]);
      assert u[i] == before[i];
    } else {
      ObtEqReflexive(stop, obts[k]);
      assert u[|before|] == obts[k];
    }
  }

  lemma CleanInit(stop: set<string>, obts: seq<string>)
    requires obts != [] && AllKeepable(obts) && Distinct(stop, obts)
    ensures var init := obts[..|obts| - 1]; AllKeepable(init) && Distinct(stop, init)
  {
    var init := obts[..|obts| - 1];
    assert forall i :: 0 <= i < |init| ==> init[i] == obts[i];
  }

  lemma LastNotInInit(stop: set<string>, obts: seq<string>)
    requires obts != [] && Distinct(stop, obts)
    ensures !ObtIn(stop, obts[|obts| - 1], obts[..|obts| - 1])
  {
    var n := |obts| - 1;
    var init, o := obts[..n], obts[n];
    forall i | 0 <= i < n ensures !ObtEq(stop, o, init[i]) {
      assert init[i] == obts[i];
      assert !ObtEq(stop, obts[i], obts[n]);
      ObtEqSymmetric(stop, o, init[i]);
    }
  }

  /** A list with keepable, pairwise distinct members is left as it is. */
  lemma {:induction false} UniqueOfClean(stop: set<string>, obts: seq<string>)
    requires AllKeepable(obts) && Distinct(stop, obts)
    ensures Unique(stop, obts) == obts
    decreases |obts|
  {
    if obts != [] {
      var init := obts[..|obts| - 1];
      CleanInit(stop, obts);
      UniqueOfClean(stop, init);
      LastNotInInit(stop, obts);
      UniqueOfCleanStep(stop, obts);
    }
  }

  /** The inductive step of `UniqueOfClean`: a new keepable object after a list `obts_unique` leaves alone. */
  lemma UniqueOfCleanStep(stop: set<string>, obts: seq<string>)
    requires obts != [] && Unique(stop, obts[..|obts| - 1]) == obts[..|obts| - 1]
    requires Keepable(obts[|obts| - 1]) && !ObtIn(stop, obts[|obts| - 1], obts[..|obts| - 1])
    ensures Unique(stop, obts) == obts
  {
    assert obts == obts[..|obts| - 1] + [obts[|obts| - 1]];
  }

  /** `obts_unique` is idempotent. */
  lemma UniqueIdempotent(stop: set<string>, obts: seq<string>)
    ensures Unique(stop, Unique(stop, obts)) == Unique(stop, obts)
  {
    UniqueClean(stop, obts);
    UniqueOfClean(stop, Unique(stop, obts));
  }

  // Sentence templates.

  /** `and_join`: "a", "a and b", "a, b and c"; an empty list raises IndexError. */
  function AndJoin(obts: seq<string>): Result<string> {
    if |obts| == 1 then Ok(obts[0])
    else if obts == [] then Err(IndexOutOfRange)
    else Ok(Join(", ", obts[..|obts| - 1]) + " and " + obts[|obts| - 1])
  }

  /** The `gen_sentence` template of relation `rel` around an already joined object list. */
  function Template(rel: Relation, joined: string): string {
    match rel
    case XIntent => "He wanted to " + joined + "."
    case XNeed => "He decided to " + joined + "."
    case XAttr => "He is a " + joined + " person."
    case XWant => "He wants to " + joined + "."
    case XReact => "He feels " + joined + "."
    case XEffect => "He " + joined + "."
  }

  /** A generated sentence before rendering: its relation's template and the joined objects it is filled with. */
  datatype Sentence = Sentence(rel: Relation, joined: string)

  /** The text of a sentence. */
  function Render(s: Sentence): string {
    Template(s.rel, s.joined)
  }

  /** `gen_sentence` as a sentence value: `and_join` of the objects under the relation's template. */
  function Compose(rel: Relation, obts: seq<string>): Result<Sentence> {
    match AndJoin(obts)
    case Ok(joined) => Ok(Sentence(rel, joined))
    case Err(e) => Err(e)
  }

  /** `gen_sentence`. */
  function GenSentence(rel: Relation, obts: seq<string>): Result<string> {
    match AndJoin(obts)
    case Ok(joined) => Ok(Template(rel, joined))
    case Err(e) => Err(e)
  }

  /** The text `gen_sentence` returns is exactly the rendering of the composed sentence, and both fail together. */
  lemma ComposeRenders(rel: Relation, obts: seq<string>)
    ensures Compose(rel, obts).Ok? <==> GenSentence(rel, obts).Ok?
    ensures Compose(rel, obts).Ok? ==> GenSentence(rel, obts).value == Render(Compose(rel, obts).value)
  {
  }

  /**
    `and_join` fails exactly on the empty list, returns a single object
    unchanged, and otherwise starts with the first object and ends with
    " and " and the last.
  */
  lemma AndJoinShape(obts: seq<string>)
    ensures AndJoin(obts).Err? <==> obts == []
    ensures |obts| == 1 ==> AndJoin(obts) == Ok(obts[0])
    ensures |obts| >= 2 ==> StartsWith(AndJoin(obts).value, obts[0]) && EndsWith(AndJoin(obts).value, " and " + obts[|obts| - 1])
  {
    if |obts| >= 2 {
      var init := obts[..|obts| - 1];
      JoinStartsWithFirst(", ", init);
      var r := AndJoin(obts).value;
      assert r == Join(", ", init) + (" and " + obts[|obts| - 1]);
    }
  }

  /** Every generated sentence starts with "He " and ends with a full stop, around the joined objects. */
  lemma SentenceFrame(rel: Relation, obts: seq<string>)
    requires obts != []
    ensures GenSentence(rel, obts).Ok?
    ensures StartsWith(GenSentence(rel, obts).value, "He ")
    ensures EndsWith(GenSentence(rel, obts).value, ".")
  {
    AndJoinShape(obts);
  }

  /** A one-object sentence is the template around that object. */
  lemma OneObjectSentence(rel: Relation, obt: string)
    ensures Compose(rel, [obt]) == Ok(Sentence(rel, obt))
    ensures GenSentence(rel, [obt]) == Ok(Render(Sentence(rel, obt)))
  {
  }
}
