/**
  The word -> antonym table. Each resource line pairs every word of its left
  group with every word of its right group; each pairing is inserted in both
  directions into one dictionary, so a later insertion overwrites an earlier
  one for the same key.
*/
module Antonyms {
  import opened Wrappers
  import opened Text

  type Table = map<string, string>

  /** One dictionary assignment `table[key] = value`. */
  type Write = (string, string)

  /** The dictionary after performing `ws` in order on `m`. */
  function Apply(m: Table, ws: seq<Write>): Table
    decreases |ws|
  {
    if ws == [] then m
    else Apply(m, ws[..|ws| - 1])[ws[|ws| - 1].0 := ws[|ws| - 1].1]
  }

  /** The writes of the inner loop for one word: `t[word] = ant; t[ant] = word` for each antonym. */
  function RowWrites(word: string, ants: seq<string>): seq<Write>
    decreases |ants|
  {
    if ants == [] then []
    else
      var ant := ants[|ants| - 1];
      RowWrites(word, ants[..|ants| - 1]) + [(word, ant), (ant, word)]
  }

  /** The writes of the two nested loops over one line's groups. */
  function PairWrites(words: seq<string>, ants: seq<string>): seq<Write>
    decreases |words|
  {
    if words == [] then []
    else PairWrites(words[..|words| - 1], ants) + RowWrites(words[|words| - 1], ants)
  }

  /** The writes of a loop over `rows`, each row contributing `f(row)`, in order. */
  function Flatten<R>(rows: seq<R>, f: R -> seq<Write>): seq<Write>
    decreases |rows|
  {
    if rows == [] then [] else Flatten(rows[..|rows| - 1], f) + f(rows[|rows| - 1])
  }

  lemma {:induction false} FlattenMembers<R>(rows: seq<R>, f: R -> seq<Write>, p: Write)
    ensures p in Flatten(rows, f) <==> exists row :: row in rows && p in f(row)
    decreases |rows|
  {
    if rows != [] {
      var rows' := rows[..|rows| - 1];
      assert rows == rows' + [rows[|rows| - 1]];
      FlattenMembers(rows', f, p);
    }
  }

  lemma FlattenSnoc<R>(rows: seq<R>, f: R -> seq<Write>, k: nat)
    requires k < |rows|
    ensures Flatten(rows[..k + 1], f) == Flatten(rows[..k], f) + f(rows[k])
  {
    assert rows[..k + 1][..k] == rows[..k];
  }

  lemma {:induction false} ApplyConcat(m: Table, a: seq<Write>, b: seq<Write>)
    ensures Apply(m, a + b) == Apply(Apply(m, a), b)
    decreases |b|
  {
    if b == [] {
      assert a + b == a;
    } else {
      assert (a + b)[..|a + b| - 1] == a + b[..|b| - 1];
      ApplyConcat(m, a, b[..|b| - 1]);
    }
  }

  /** Last writer wins: a key is present iff some write targets it, and its value is that of the last such write. */
  lemma {:induction false} LastWriteWins(m: Table, ws: seq<Write>, k: string)
    ensures k in Apply(m, ws) <==> k in m || exists i :: 0 <= i < |ws| && ws[i].0 == k
    ensures (exists i :: 0 <= i < |ws| && ws[i].0 == k) ==>
              exists i :: 0 <= i < |ws| && ws[i].0 == k && Apply(m, ws)[k] == ws[i].1
                          && forall j :: i < j < |ws| ==> ws[j].0 != k
    ensures (forall i :: 0 <= i < |ws| ==> ws[i].0 != k) ==> (k in m ==> Apply(m, ws)[k] == m[k])
    decreases |ws|
  {
    if ws != [] {
      var ws' := ws[..|ws| - 1];
      LastWriteWins(m, ws', k);
      assert forall i :: 0 <= i < |ws'| ==> ws'[i] == ws[i];
      if ws[|ws| - 1].0 != k {
        if exists i :: 0 <= i < |ws| && ws[i].0 == k {
          var i :| 0 <= i < |ws| && ws[i].0 == k;
          assert ws'[i].0 == k;
        }
      }
    }
  }

  /** A key that some write targets is present afterwards. */
  lemma WrittenKeyPresent(m: Table, ws: seq<Write>, p: Write)
    requires p in ws
    ensures p.0 in Apply(m, ws)
  {
    var i :| 0 <= i < |ws| && ws[i] == p;
    LastWriteWins(m, ws, p.0);
  }

  lemma {:induction false} RowWritesMembers(word: string, ants: seq<string>, p: Write)
    ensures p in RowWrites(word, ants) <==> (p.0 == word && p.1 in ants) || (p.0 in ants && p.1 == word)
    decreases |ants|
  {
    if ants != [] {
      var ants' := ants[..|ants| - 1];
      assert ants == ants' + [ants[|ants| - 1]];
      RowWritesMembers(word, ants', p);
    }
  }

  /** The nested loops insert exactly the cross product of the two groups, in both directions. */
  lemma {:induction false} PairWritesMembers(words: seq<string>, ants: seq<string>, p: Write)
    ensures p in PairWrites(words, ants) <==> (p.0 in words && p.1 in ants) || (p.0 in ants && p.1 in words)
    decreases |words|
  {
    if words != [] {
      var words' := words[..|words| - 1];
      assert words == words' + [words[|words| - 1]];
      PairWritesMembers(words', ants, p);
      RowWritesMembers(words[|words| - 1], ants, p);
    }
  }

  /** The two nested loops of both loaders: every word paired with every antonym, both ways. */
  method PairUp(table: Table, words: seq<string>, ants: seq<string>) returns (result: Table)
    ensures result == Apply(table, PairWrites(words, ants))
  {
    result := table;
    for i := 0 to |words|
      invariant result == Apply(table, PairWrites(words[..i], ants))
    {
      var word := words[i];
      ghost var before := result;
      for j := 0 to |ants|
        invariant result == Apply(before, RowWrites(word, ants[..j]))
      {
        var ant := ants[j];
        result := result[word := ant];
        result := result[ant := word];
        assert ants[..j + 1][..j] == ants[..j];
        ghost var ws := RowWrites(word, ants[..j]) + [(word, ant), (ant, word)];
        assert ws[..|ws| - 1] == RowWrites(word, ants[..j]) + [(word, ant)];
        assert (RowWrites(word, ants[..j]) + [(word, ant)])[..|ws| - 1 - 1] == RowWrites(word, ants[..j]);
      }
      assert ants[..|ants|] == ants;
      assert words[..i + 1][..i] == words[..i];
      ApplyConcat(table, PairWrites(words[..i], ants), RowWrites(word, ants));
    }
    assert words[..|words|] == words;
  }

  // ---------------------------------------------------------------------------
  // Current loader (`_read_antonyms_tsv`): each row is already split at the tab
  // into its two comma-separated fields; each word is stripped.

  /** `[w.strip() for w in pieces]`. */
  function StripAll(pieces: seq<string>): (ws: seq<string>)
    ensures |ws| == |pieces|
  {
    if pieces == [] then [] else [Strip(pieces[0])] + StripAll(pieces[1..])
  }

  /** `[w.strip() for w in csv.split(",")]`. */
  function StrippedGroup(csv: string): seq<string> {
    StripAll(SplitOn(csv, ','))
  }

  /** The writes the nested loops perform for one row. */
  function RowPairs(row: (string, string)): seq<Write> {
    PairWrites(StrippedGroup(row.0), StrippedGroup(row.1))
  }

  function TsvWrites(rows: seq<(string, string)>): seq<Write> {
    Flatten(rows, RowPairs)
  }

  /** `_read_antonyms_tsv` without the file read: rows are (word_csv, antonym_csv). */
  method ReadAntonymsTsv(rows: seq<(string, string)>) returns (table: Table)
    ensures table == Apply(map[], TsvWrites(rows))
  {
    table := map[];
    for r := 0 to |rows|
      invariant table == Apply(map[], TsvWrites(rows[..r]))
    {
      var words := StrippedGroup(rows[r].0);
      var ants := StrippedGroup(rows[r].1);
      table := PairUp(table, words, ants);
      FlattenSnoc(rows, RowPairs, r);
      ApplyConcat(map[], TsvWrites(rows[..r]), PairWrites(words, ants));
    }
    assert rows[..|rows|] == rows;
  }

  /** `k` and `v` stand on opposite sides of `row`, after stripping. */
  predicate PairedOnRow(row: (string, string), k: string, v: string) {
    var words, ants := StrippedGroup(row.0), StrippedGroup(row.1);
    (k in words && v in ants) || (k in ants && v in words)
  }

  /** Every looked-up antonym was paired with its key on some row, in one direction or the other. */
  lemma TsvLookupWasPaired(rows: seq<(string, string)>, k: string)
    requires k in Apply(map[], TsvWrites(rows))
    ensures exists row :: row in rows && PairedOnRow(row, k, Apply(map[], TsvWrites(rows))[k])
  {
    var ws := TsvWrites(rows);
    LastWriteWins(map[], ws, k);
    var n :| 0 <= n < |ws| && ws[n].0 == k && Apply(map[], ws)[k] == ws[n].1;
    var p := ws[n];
    FlattenMembers(rows, RowPairs, p);
    var row :| row in rows && p in RowPairs(row);
    var words, ants := StrippedGroup(row.0), StrippedGroup(row.1);
    assert RowPairs(row) == PairWrites(words, ants);
    PairWritesMembers(words, ants, p);
    assert PairedOnRow(row, k, p.1);
  }

  /** Every stripped word of every row becomes a key of the table. */
  lemma TsvPairedWordIsKey(rows: seq<(string, string)>, row: (string, string), k: string, v: string)
    requires row in rows && PairedOnRow(row, k, v)
    ensures k in Apply(map[], TsvWrites(rows))
  {
    var ws := TsvWrites(rows);
    var words, ants := StrippedGroup(row.0), StrippedGroup(row.1);
    assert RowPairs(row) == PairWrites(words, ants);
    PairWritesMembers(words, ants, (k, v));
    assert (k, v) in RowPairs(row);
    FlattenMembers(rows, RowPairs, (k, v));
    WrittenKeyPresent(map[], ws, (k, v));
  }

  /** Each pairing of a row is inserted in both directions. */
  lemma TsvBothDirections(rows: seq<(string, string)>, r: nat, w: string, a: string)
    requires r < |rows| && w in StrippedGroup(rows[r].0) && a in StrippedGroup(rows[r].1)
    ensures (w, a) in TsvWrites(rows) && (a, w) in TsvWrites(rows)
  {
    var row := rows[r];
    var words, ants := StrippedGroup(row.0), StrippedGroup(row.1);
    PairWritesMembers(words, ants, (w, a));
    PairWritesMembers(words, ants, (a, w));
    assert RowPairs(row) == PairWrites(words, ants);
    assert row in rows;
    FlattenMembers(rows, RowPairs, (w, a));
    FlattenMembers(rows, RowPairs, (a, w));
  }

  /** With one word on each side the table is the symmetric pair. */
  lemma SingleRowIsSymmetric(w: string, a: string)
    ensures Apply(map[], PairWrites([w], [a])) == map[w := a][a := w]
  {
    assert [w][..0] == [] && [a][..0] == [];
    var ws := [(w, a), (a, w)];
    assert RowWrites(w, []) == [] && PairWrites([], [a]) == [];
    assert RowWrites(w, [a]) == ws;
    assert PairWrites([w], [a]) == ws;
    assert ws[..1] == [(w, a)] && ws[..1][..0] == [];
    assert Apply(map[], ws[..1]) == map[w := a];
  }

  /** Last write wins makes the table asymmetric when a group holds several words: b -> a but a -> c. */
  lemma ConflictingPairsAreAsymmetric(a: string, b: string, c: string)
    requires a != b && a != c && b != c
    ensures Apply(map[], PairWrites([a], [b, c])) == map[a := c, b := a, c := a]
  {
    assert [a][..0] == [];
    assert [b, c][..1] == [b] && [b][..0] == [];
    var ws := [(a, b), (b, a), (a, c), (c, a)];
    assert RowWrites(a, []) == [] && PairWrites([], [b, c]) == [];
    assert RowWrites(a, [b]) == [(a, b), (b, a)];
    assert RowWrites(a, [b, c]) == ws;
    assert PairWrites([a], [b, c]) == ws;
    assert ws[..3] == [(a, b), (b, a), (a, c)];
    assert ws[..3][..2] == [(a, b), (b, a)];
    assert ws[..3][..2][..1] == [(a, b)];
    assert ws[..3][..2][..1][..0] == [];
    assert Apply(map[], ws[..3][..2][..1]) == map[a := b];
    assert Apply(map[], ws[..3][..2]) == map[a := b, b := a];
    assert Apply(map[], ws[..3]) == map[a := c, b := a];
  }

  // ---------------------------------------------------------------------------
  // Legacy loader: `line.strip().split('\t')`, then the first two fields split
  // at commas with no stripping of the words.

  function LegacyFields(line: string): seq<string> {
    SplitOn(Strip(line), '\t')
  }

  /** `toks[1]` exists. */
  predicate LegacyLineOk(line: string) {
    |LegacyFields(line)| >= 2
  }

  /** The writes for one legacy line; a line without a second field raises before writing anything. */
  function LegacyLinePairs(line: string): seq<Write> {
    var fields := LegacyFields(line);
    if |fields| < 2 then [] else PairWrites(SplitOn(fields[0], ','), SplitOn(fields[1], ','))
  }

  function LegacyWrites(lines: seq<string>): seq<Write> {
    Flatten(lines, LegacyLinePairs)
  }

  /** The legacy module-level table: an IndexError on the first line without a tab-separated second field. */
  function LegacyTable(lines: seq<string>): Result<Table> {
    if forall i :: 0 <= i < |lines| ==> LegacyLineOk(lines[i]) then Ok(Apply(map[], LegacyWrites(lines)))
    else Err(IndexOutOfRange)
  }

  /** The legacy module-level loop over the lines of `antonyms.txt`. */
  method LoadLegacyAntonyms(lines: seq<string>) returns (r: Result<Table>)
    ensures r == LegacyTable(lines)
    ensures r.Err? <==> exists i :: 0 <= i < |lines| && !LegacyLineOk(lines[i])
  {
    var antonyms: Table := map[];
    for l := 0 to |lines|
      invariant forall i :: 0 <= i < l ==> LegacyLineOk(lines[i])
      invariant antonyms == Apply(map[], LegacyWrites(lines[..l]))
    {
      var line := lines[l];
      var toks := SplitOn(Strip(line), '\t');
      assert toks == LegacyFields(line);
      if |toks| < 2 {
        assert !LegacyLineOk(line);
        return Err(IndexOutOfRange);
      }
      assert LegacyLineOk(line);
      var subjects := SplitOn(toks[0], ',');
      var objects := SplitOn(toks[1], ',');
      antonyms := PairUp(antonyms, subjects, objects);
      assert LegacyLinePairs(line) == PairWrites(subjects, objects);
      FlattenSnoc(lines, LegacyLinePairs, l);
      ApplyConcat(map[], LegacyWrites(lines[..l]), PairWrites(subjects, objects));
      forall i | 0 <= i < l + 1 ensures LegacyLineOk(lines[i]) {
        if i == l { assert lines[i] == line; }
      }
    }
    assert lines[..|lines|] == lines;
    return Ok(antonyms);
  }
}
