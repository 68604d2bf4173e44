/**
  Python string primitives used by the modelled code: `str.split()`,
  `str.split(sep)`, `str.strip()`, `sep.join(...)`, `startswith` and
  `endswith`. Strings are sequences of characters.
*/
module Text {

  /** Python's `str.isspace` for one character: the characters `str.split()` and `str.strip()` treat as whitespace. */
  predicate IsSpace(c: char) {
    c == ' ' || ('\t' <= c <= '\r') || ('\U{1C}' <= c <= '\U{1F}') || c == '\U{85}' || c == '\U{A0}'
    || c == '\U{1680}' || ('\U{2000}' <= c <= '\U{200A}') || c == '\U{2028}' || c == '\U{2029}'
    || c == '\U{202F}' || c == '\U{205F}' || c == '\U{3000}'
  }

  /** A whitespace-only (possibly empty) string. */
  predicate IsBlank(s: string) {
    forall i :: 0 <= i < |s| ==> IsSpace(s[i])
  }

  /** A token as `str.split()` produces it: non-empty, no whitespace. */
  predicate IsWord(w: string) {
    w != [] && forall i :: 0 <= i < |w| ==> !IsSpace(w[i])
  }

  predicate AllWords(ws: seq<string>) {
    forall i :: 0 <= i < |ws| ==> IsWord(ws[i])
  }

  predicate StartsWith(s: string, prefix: string) {
    prefix <= s
  }

  predicate EndsWith(s: string, suffix: string) {
    |suffix| <= |s| && s[|s| - |suffix|..] == suffix
  }

  /** The longest prefix of `s` without whitespace. */
  function TakeWord(s: string): (w: string)
    ensures w <= s
    ensures forall i :: 0 <= i < |w| ==> !IsSpace(w[i])
    ensures |w| < |s| ==> IsSpace(s[|w|])
  {
    if s == [] || IsSpace(s[0]) then [] else [s[0]] + TakeWord(s[1..])
  }

  /** Python `s.split()`: the maximal runs of non-whitespace characters, in order. */
  function Split(s: string): (ws: seq<string>)
    ensures AllWords(ws)
    decreases |s|
  {
    if s == [] then []
    else if IsSpace(s[0]) then Split(s[1..])
    else
      var w := TakeWord(s);
      [w] + Split(s[|w|..])
  }

  /** Python `sep.join(xs)`. */
  function Join(sep: string, xs: seq<string>): string {
    if xs == [] then []
    else if |xs| == 1 then xs[0]
    else xs[0] + sep + Join(sep, xs[1..])
  }

  /** Python `s.split(sep)` for a one-character separator: never empty, pieces may be empty. */
  function SplitOn(s: string, sep: char): (pieces: seq<string>)
    ensures |pieces| >= 1
  {
    if s == [] then [[]]
    else if s[0] == sep then [[]] + SplitOn(s[1..], sep)
    else
      var rest := SplitOn(s[1..], sep);
      [[s[0]] + rest[0]] + rest[1..]
  }

  function TrimLeft(s: string): (t: string)
    ensures |t| <= |s| && t == s[|s| - |t|..]
  {
    if s != [] && IsSpace(s[0]) then TrimLeft(s[1..]) else s
  }

  function TrimRight(s: string): (t: string)
    ensures t <= s
  {
    if s != [] && IsSpace(s[|s| - 1]) then TrimRight(s[..|s| - 1]) else s
  }

  /** Python `s.strip()`. */
  function Strip(s: string): string {
    TrimRight(TrimLeft(s))
  }

  lemma {:induction false} TakeWordOfWord(w: string, rest: string)
    requires forall i :: 0 <= i < |w| ==> !IsSpace(w[i])
    requires rest == [] || IsSpace(rest[0])
    ensures TakeWord(w + rest) == w
  {
    if w != [] {
      assert (w + rest)[1..] == w[1..] + rest;
      TakeWordOfWord(w[1..], rest);
    }
  }

  /** Splitting a single-space join of tokens gives back the tokens. */
  lemma {:induction false} SplitJoin(ws: seq<string>)
    requires AllWords(ws)
    ensures Split(Join(" ", ws)) == ws
  {
    if ws == [] {
    } else if |ws| == 1 {
      var w := ws[0];
      TakeWordOfWord(w, []);
      assert w + [] == w;
      assert w[|w|..] == [];
    } else {
      var w, tail := ws[0], Join(" ", ws[1..]);
      var s := w + " " + tail;
      assert s == w + (" " + tail);
      TakeWordOfWord(w, " " + tail);
      assert s[|w|..] == " " + tail;
      assert (" " + tail)[1..] == tail;
      SplitJoin(ws[1..]);
      assert ws == [w] + ws[1..];
    }
  }

  /** `str.split()` yields nothing exactly for whitespace-only strings. */
  lemma {:induction false} SplitEmptyIffBlank(s: string)
    ensures Split(s) == [] <==> IsBlank(s)
    decreases |s|
  {
    if s != [] {
      if IsSpace(s[0]) {
        SplitEmptyIffBlank(s[1..]);
        assert IsBlank(s) <==> IsBlank(s[1..]) by {
          if IsBlank(s[1..]) {
            forall i | 0 <= i < |s| ensures IsSpace(s[i]) {
              if i > 0 { assert s[i] == s[1..][i - 1]; }
            }
          }
        }
      } else {
        assert !IsBlank(s);
      }
    }
  }

  lemma {:induction false} TrimLeftEmptyIffBlank(s: string)
    ensures TrimLeft(s) == [] <==> IsBlank(s)
    ensures TrimLeft(s) != [] ==> !IsSpace(TrimLeft(s)[0])
    decreases |s|
  {
    if s != [] && IsSpace(s[0]) {
      TrimLeftEmptyIffBlank(s[1..]);
      if IsBlank(s[1..]) {
        forall i | 0 <= i < |s| ensures IsSpace(s[i]) {
          if i > 0 { assert s[i] == s[1..][i - 1]; }
        }
      } else {
        var j :| 0 <= j < |s[1..]| && !IsSpace(s[1..][j]);
        assert !IsSpace(s[j + 1]);
      }
    } else if s != [] {
      assert !IsSpace(s[0]);
    }
  }

  lemma {:induction false} TrimRightKeepsFirst(s: string)
    requires s != [] && !IsSpace(s[0])
    ensures TrimRight(s) != []
    decreases |s|
  {
    if IsSpace(s[|s| - 1]) {
      assert |s| > 1;
      TrimRightKeepsFirst(s[..|s| - 1]);
    }
  }

  /** `len(s.strip()) > 0` holds exactly for strings that are not whitespace-only. */
  lemma StripEmptyIffBlank(s: string)
    ensures Strip(s) == [] <==> IsBlank(s)
  {
    TrimLeftEmptyIffBlank(s);
    if TrimLeft(s) != [] {
      TrimRightKeepsFirst(TrimLeft(s));
    }
  }

  /** `sep.join` of a non-empty list begins with its first element. */
  lemma JoinStartsWithFirst(sep: string, xs: seq<string>)
    requires xs != []
    ensures StartsWith(Join(sep, xs), xs[0])
  {
  }
}
