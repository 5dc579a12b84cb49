/**
  Reading the word list for flashcard generation: every line of the input
  file is stripped of surrounding whitespace, and blank lines are dropped
  (flashcard_generation/generate.py, `load_words_from_file`).
*/
module WordList {

  /**
    The characters for which Python's `str.isspace` holds, which are the
    ones `str.strip()` removes: the ASCII controls \t \n \v \f \r and
    \x1c-\x1f, the space, and the Unicode separators.
  */
  const Whitespace: set<char> := {
    '\t', '\n', '\U{0B}', '\U{0C}', '\r', '\U{1C}', '\U{1D}', '\U{1E}', '\U{1F}',
    ' ', '\U{85}', '\U{A0}', '\U{1680}',
    '\U{2000}', '\U{2001}', '\U{2002}', '\U{2003}', '\U{2004}', '\U{2005}',
    '\U{2006}', '\U{2007}', '\U{2008}', '\U{2009}', '\U{200A}',
    '\U{2028}', '\U{2029}', '\U{202F}', '\U{205F}', '\U{3000}'}

  predicate IsSpace(c: char) {
    c in Whitespace
  }

  /** Every character of `s` is whitespace (true of the empty string). */
  predicate AllSpace(s: string) {
    s == [] || (IsSpace(s[0]) && AllSpace(s[1..]))
  }

  lemma {:induction false} AllSpaceAt(s: string, j: nat)
    requires AllSpace(s) && j < |s|
    ensures IsSpace(s[j])
  {
    if j > 0 { AllSpaceAt(s[1..], j - 1); }
  }

  lemma {:induction false} AllSpaceConcat(x: string, y: string)
    requires AllSpace(x) && AllSpace(y)
    ensures AllSpace(x + y)
  {
    if x != [] {
      assert (x + y)[1..] == x[1..] + y;
      AllSpaceConcat(x[1..], y);
    } else {
      assert x + y == y;
    }
  }

  /** Neither starts nor ends with whitespace. */
  predicate Trimmed(s: string) {
    s == [] || (!IsSpace(s[0]) && !IsSpace(s[|s| - 1]))
  }

  /** `s.lstrip()`: drops whitespace from the front. */
  function StripLeading(s: string): string {
    if s != [] && IsSpace(s[0]) then StripLeading(s[1..]) else s
  }

  /** `s.rstrip()`: drops whitespace from the back. */
  function StripTrailing(s: string): string {
    if s != [] && IsSpace(s[|s| - 1]) then StripTrailing(s[..|s| - 1]) else s
  }

  /** `lstrip` leaves the longest suffix that does not start with whitespace. */
  lemma {:induction false} StripLeadingSuffix(s: string)
    ensures var r := StripLeading(s);
      && |r| <= |s|
      && r == s[|s| - |r|..]
      && AllSpace(s[..|s| - |r|])
      && (r != [] ==> !IsSpace(r[0]))
  {
    if s != [] && IsSpace(s[0]) {
      StripLeadingSuffix(s[1..]);
      var r := StripLeading(s[1..]);
      assert s[..|s| - |r|][1..] == s[1..][..|s| - 1 - |r|];
    }
  }

  /** `rstrip` leaves the longest prefix that does not end with whitespace. */
  lemma {:induction false} StripTrailingPrefix(s: string)
    ensures var r := StripTrailing(s);
      && |r| <= |s|
      && r == s[..|r|]
      && AllSpace(s[|r|..])
      && (r != [] ==> !IsSpace(r[|r| - 1]))
  {
    if s != [] && IsSpace(s[|s| - 1]) {
      var p := s[..|s| - 1];
      StripTrailingPrefix(p);
      var r := StripTrailing(p);
      assert s[|r|..] == p[|r|..] + [s[|s| - 1]];
      assert [s[|s| - 1]][1..] == [];
      AllSpaceConcat(p[|r|..], [s[|s| - 1]]);
    }
  }

  /** `s.strip()`: drops whitespace from both ends. */
  function Strip(s: string): string {
    StripTrailing(StripLeading(s))
  }

  /**
    The stripped string is a slice of `s` with only whitespace around it,
    begins and ends with a non-space, and is empty exactly when `s` is all
    whitespace.
  */
  lemma StripSlice(s: string)
    ensures Trimmed(Strip(s))
    ensures var r := Strip(s);
      exists a :: 0 <= a <= |s| - |r| && r == s[a..a + |r|] && AllSpace(s[..a]) && AllSpace(s[a + |r|..])
    ensures Strip(s) == [] <==> AllSpace(s)
  {
    var a := StripBounds(s);
    StripEmpty(s, a, Strip(s));
  }

  /** Where the stripped part of `s` starts, and what lies around it. */
  lemma StripBounds(s: string) returns (a: nat)
    ensures var r := Strip(s);
      && a <= |s| - |r| && r == s[a..a + |r|] && AllSpace(s[..a]) && AllSpace(s[a + |r|..])
      && Trimmed(r)
  {
    var t := StripLeading(s);
    var r := StripTrailing(t);
    StripLeadingSuffix(s);
    StripTrailingPrefix(t);
    a := |s| - |t|;
    assert a <= |s| - |r| && AllSpace(s[..a]);
    SliceAround(s, t, r);
    assert r == s[a..a + |r|] && AllSpace(s[a + |r|..]);
    TrimmedPrefix(t, r);
    assert Trimmed(r);
  }

  lemma TrimmedPrefix(t: string, r: string)
    requires |r| <= |t| && r == t[..|r|]
    requires t != [] ==> !IsSpace(t[0])
    requires r != [] ==> !IsSpace(r[|r| - 1])
    ensures Trimmed(r)
  {
    assert r != [] ==> r[0] == t[0];
  }

  /** A prefix `r` of a suffix `t` of `s` is a slice of `s`, and what follows `r` in `t` is what follows it in `s`. */
  lemma SliceAround(s: string, t: string, r: string)
    requires |t| <= |s| && t == s[|s| - |t|..]
    requires |r| <= |t| && r == t[..|r|] && AllSpace(t[|r|..])
    ensures var a := |s| - |t|; r == s[a..a + |r|] && AllSpace(s[a + |r|..])
  {
    var a := |s| - |t|;
    TakeOfDrop(s, a, |r|);
    DropOfDrop(s, a, |r|);
  }

  lemma TakeOfDrop<T>(s: seq<T>, a: nat, m: nat)
    requires a + m <= |s|
    ensures s[a..][..m] == s[a..a + m]
  {
  }

  lemma DropOfDrop<T>(s: seq<T>, a: nat, m: nat)
    requires a + m <= |s|
    ensures s[a..][m..] == s[a + m..]
  {
  }

  lemma StripEmpty(s: string, a: nat, r: string)
    requires a <= |s| - |r| && r == s[a..a + |r|] && AllSpace(s[..a]) && AllSpace(s[a + |r|..])
    requires r != [] ==> !IsSpace(r[0])
    ensures r == [] <==> AllSpace(s)
  {
    if r == [] {
      assert s == s[..a] + s[a..];
      AllSpaceConcat(s[..a], s[a..]);
    } else if AllSpace(s) {
      AllSpaceAt(s, a);
    }
  }

  /** Stripping an already stripped string changes nothing. */
  lemma StripIdempotent(s: string)
    ensures Strip(Strip(s)) == Strip(s)
  {
    StripSlice(s);
    StripTrimmed(Strip(s));
  }

  /** A string without surrounding whitespace is its own stripped form. */
  lemma StripTrimmed(s: string)
    requires Trimmed(s)
    ensures Strip(s) == s
  {
    assert StripLeading(s) == s;
  }

  /**
    The comprehension `[word.strip() for word in lines if word.strip()]`:
    the stripped form of every line whose stripped form is not empty.
  */
  function LoadWords(lines: seq<string>): (words: seq<string>)
    ensures |words| <= |lines|
    ensures forall k :: 0 <= k < |words| ==> words[k] != [] && Trimmed(words[k])
  {
    if lines == [] then [] else Kept(lines[0]) + LoadWords(lines[1..])
  }

  /** What one line contributes: its stripped form, unless that is empty. */
  function Kept(line: string): (ws: seq<string>)
    ensures |ws| <= 1
    ensures forall k :: 0 <= k < |ws| ==> ws[k] != [] && Trimmed(ws[k])
  {
    StripSlice(line);
    var w := Strip(line);
    if w != [] then [w] else []
  }

  /** Cleaning a file's lines is cleaning its two halves and concatenating: order is kept. */
  lemma {:induction false} LoadWordsAppend(a: seq<string>, b: seq<string>)
    ensures LoadWords(a + b) == LoadWords(a) + LoadWords(b)
  {
    if a != [] {
      assert (a + b)[0] == a[0];
      assert (a + b)[1..] == a[1..] + b;
      LoadWordsAppend(a[1..], b);
      assert LoadWords(a + b) == Kept(a[0]) + LoadWords(a[1..] + b);
    } else {
      assert a + b == b;
    }
  }

  /** A single line is kept, stripped, exactly when it is not blank. */
  lemma LoadWordsSingle(line: string)
    ensures LoadWords([line]) == if Strip(line) == [] then [] else [Strip(line)]
  {
    assert [line][1..] == [];
  }

  /** A word is in the result exactly when some line strips to it and it is not empty. */
  lemma {:induction false} LoadWordsMembership(lines: seq<string>, w: string)
    ensures w in LoadWords(lines) <==> w != [] && exists j :: 0 <= j < |lines| && Strip(lines[j]) == w
  {
    if lines != [] {
      LoadWordsMembership(lines[1..], w);
      if w != [] && exists j :: 0 <= j < |lines| && Strip(lines[j]) == w {
        var j :| 0 <= j < |lines| && Strip(lines[j]) == w;
        if j > 0 {
          assert Strip(lines[1..][j - 1]) == w;
        }
      }
    }
  }

  /** Cleaning an already cleaned word list changes nothing. */
  lemma {:induction false} LoadWordsIdempotent(lines: seq<string>)
    ensures LoadWords(LoadWords(lines)) == LoadWords(lines)
  {
    if lines != [] {
      var w := Strip(lines[0]);
      var rest := LoadWords(lines[1..]);
      LoadWordsIdempotent(lines[1..]);
      assert LoadWords(lines) == Kept(lines[0]) + rest;
      if w != [] {
        assert Kept(lines[0]) == [w];
        LoadWordsAppend([w], rest);
        StripIdempotent(lines[0]);
        assert Kept(w) == [w];
        assert LoadWords([w]) == [w] by {
          assert [w][1..] == [];
        }
      } else {
        assert Kept(lines[0]) + rest == rest;
      }
    }
  }
}
