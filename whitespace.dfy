/**
 * Whitespace normalisation of descriptions and frequencies: every run of
 * whitespace becomes one space (`re.sub(r"\s+", " ", value)`), the ends are
 * stripped (`str.strip()`), and an empty result is refused.
 */
module Whitespace {
  import opened Wrappers
  import opened Values

  /** Python's whitespace: the characters `\s` matches and `str.strip()` removes. */
  predicate IsSpace(c: char) {
    ('\U{0009}' <= c <= '\U{000D}') || ('\U{001C}' <= c <= '\U{0020}')
    || c == '\U{0085}' || c == '\U{00A0}' || c == '\U{1680}'
    || ('\U{2000}' <= c <= '\U{200A}') || c == '\U{2028}' || c == '\U{2029}'
    || c == '\U{202F}' || c == '\U{205F}' || c == '\U{3000}'
  }

  /** The characters of s that are not whitespace, in order. */
  function NonSpace(s: string): string {
    if s == [] then []
    else (if IsSpace(s[0]) then [] else [s[0]]) + NonSpace(s[1..])
  }

  /** Whitespace occurs only as single ' ' characters. */
  predicate Collapsed(s: string) {
    forall i :: 0 <= i < |s| && IsSpace(s[i]) ==> s[i] == ' ' && (i + 1 < |s| ==> !IsSpace(s[i + 1]))
  }

  /** The normal form: single spaces between words and none at either end. */
  predicate SingleSpaced(s: string) {
    Collapsed(s) && (s != [] ==> !IsSpace(s[0]) && !IsSpace(s[|s| - 1]))
  }

  lemma {:induction false} NonSpaceAppend(a: string, b: string)
    ensures NonSpace(a + b) == NonSpace(a) + NonSpace(b)
    decreases |a|
  {
    if a == [] {
      assert a + b == b;
    } else {
      assert (a + b)[0] == a[0];
      assert (a + b)[1..] == a[1..] + b;
      NonSpaceAppend(a[1..], b);
    }
  }

  lemma CollapsedCons(c: char, rest: string)
    requires Collapsed(rest)
    requires IsSpace(c) ==> c == ' ' && (rest == [] || !IsSpace(rest[0]))
    ensures Collapsed([c] + rest)
  {
    var s := [c] + rest;
    forall i | 0 <= i < |s| && IsSpace(s[i])
      ensures s[i] == ' ' && (i + 1 < |s| ==> !IsSpace(s[i + 1]))
    {
      if i > 0 {
        assert s[i] == rest[i - 1];
        if i + 1 < |s| {
          assert s[i + 1] == rest[i];
        }
      }
    }
  }

  /** Drops the leading whitespace run. */
  function SkipSpaces(s: string): (r: string)
    ensures |r| <= |s| && r == s[|s| - |r|..]
    ensures s != [] && IsSpace(s[0]) ==> |r| < |s|
    ensures r == [] || !IsSpace(r[0])
    ensures NonSpace(r) == NonSpace(s)
  {
    if s != [] && IsSpace(s[0]) then
      var r := SkipSpaces(s[1..]);
      TailSuffix(s, r);
      assert NonSpace(s) == NonSpace(s[1..]);
      r
    else s
  }

  /** A text with nothing left after its leading whitespace ends with whitespace, if it is not empty. */
  lemma {:induction false} SkipSpacesAll(s: string)
    requires s != [] && SkipSpaces(s) == []
    ensures IsSpace(s[|s| - 1])
    decreases |s|
  {
    if s[1..] != [] {
      SkipSpacesAll(s[1..]);
      SuffixLast(s, s[1..]);
    }
  }

  /** Drops the trailing whitespace run. */
  function StripEnd(s: string): (r: string)
    ensures |r| <= |s| && r == s[..|r|]
    ensures r == [] || !IsSpace(r[|r| - 1])
    ensures NonSpace(r) == NonSpace(s)
  {
    if s != [] && IsSpace(s[|s| - 1]) then
      var t := s[..|s| - 1];
      assert s == t + [s[|s| - 1]];
      NonSpaceAppend(t, [s[|s| - 1]]);
      StripEnd(t)
    else s
  }

  /** The length of the run of non-whitespace characters s starts with. */
  function WordLength(s: string): (n: nat)
    ensures n <= |s|
    ensures n < |s| ==> IsSpace(s[n])
  {
    if s == [] || IsSpace(s[0]) then 0 else 1 + WordLength(s[1..])
  }

  /** `str.split()`: the maximal runs of non-whitespace characters, in order. */
  function Words(s: string): seq<string>
    decreases |s|
  {
    var t := SkipSpaces(s);
    if t == [] then []
    else
      var n := WordLength(t);
      [t[..n]] + Words(t[n..])
  }

  /** `" ".join(ws)`: the words with one space between each two. */
  function JoinSpaced(ws: seq<string>): string {
    if ws == [] then []
    else if |ws| == 1 then ws[0]
    else ws[0] + " " + JoinSpaced(ws[1..])
  }

  /** Whitespace in front of a text adds no word. */
  lemma WordsSpaceCons(c: char, s: string)
    requires IsSpace(c)
    ensures Words([c] + s) == Words(s)
  {
    assert ([c] + s)[1..] == s;
    assert SkipSpaces([c] + s) == SkipSpaces(s);
  }

  /** A non-whitespace character in front of a text joins its first word, or is a word of its own. */
  lemma WordsWordCons(c: char, s: string)
    requires !IsSpace(c)
    ensures Words([c] + s) ==
      if s != [] && !IsSpace(s[0]) then [[c] + Words(s)[0]] + Words(s)[1..] else [[c]] + Words(s)
  {
    var m := WordLength(s);
    WordsOfCharStart(c, s);
    if s != [] && !IsSpace(s[0]) {
      WordsOfWordStart(s);
    } else {
      assert m == 0;
      ZeroSlices(s);
    }
  }

  /** The first word of a text that starts with a non-whitespace character c is c and the word that follows it. */
  lemma WordsOfCharStart(c: char, s: string)
    requires !IsSpace(c)
    ensures Words([c] + s) == [[c] + s[..WordLength(s)]] + Words(s[WordLength(s)..])
  {
    var u := [c] + s;
    var m := WordLength(s);
    ConsSlices(c, s, m);
    assert SkipSpaces(u) == u;
    assert WordLength(u) == 1 + m;
  }

  /** Skipping the leading whitespace keeps the words. */
  lemma WordsSkip(s: string)
    ensures Words(SkipSpaces(s)) == Words(s)
  {
    var t := SkipSpaces(s);
    assert SkipSpaces(t) == t;
  }

  /** Whitespace at the end of a text adds no word. */
  lemma {:induction false} WordsSpaceSnoc(a: string, c: char)
    requires IsSpace(c)
    ensures Words(a + [c]) == Words(a)
    decreases |a|
  {
    if a == [] {
      assert a + [c] == [c] + [];
      WordsSpaceCons(c, []);
    } else {
      var rest := a[1..];
      assert a == [a[0]] + rest;
      assert a + [c] == [a[0]] + (rest + [c]);
      WordsSpaceSnoc(rest, c);
      if IsSpace(a[0]) {
        WordsSpaceCons(a[0], rest + [c]);
        WordsSpaceCons(a[0], rest);
      } else {
        WordsWordCons(a[0], rest + [c]);
        WordsWordCons(a[0], rest);
        if rest != [] {
          assert (rest + [c])[0] == rest[0];
        }
      }
    }
  }

  /** Dropping the trailing whitespace keeps the words. */
  lemma {:induction false} WordsStripEnd(s: string)
    ensures Words(StripEnd(s)) == Words(s)
    decreases |s|
  {
    if s != [] && IsSpace(s[|s| - 1]) {
      var t := s[..|s| - 1];
      assert s == t + [s[|s| - 1]];
      WordsSpaceSnoc(t, s[|s| - 1]);
      WordsStripEnd(t);
    }
  }

  /**
   * `re.sub(r"\s+", " ", s)`: each maximal whitespace run becomes one space.
   * No other character is touched, and a run stays where it was, so the
   * words and the whitespace at either end are those of s.
   */
  function Collapse(s: string): (r: string)
    ensures Collapsed(r)
    ensures NonSpace(r) == NonSpace(s)
    ensures r == [] <==> s == []
    ensures s != [] ==> (IsSpace(r[0]) <==> IsSpace(s[0]))
    decreases |s|
  {
    if s == [] then []
    else if IsSpace(s[0]) then
      var rest := Collapse(SkipSpaces(s));
      CollapsedCons(' ', rest);
      assert ([' '] + rest)[1..] == rest;
      [' '] + rest
    else
      var rest := Collapse(s[1..]);
      CollapsedCons(s[0], rest);
      assert ([s[0]] + rest)[1..] == rest;
      [s[0]] + rest
  }

  /**
   * Collapsing keeps the words of s; with `Collapse`'s own contract and
   * `CollapseLast`, every whitespace run of s, wherever it lies, becomes
   * exactly one space.
   */
  lemma {:induction false} CollapseWords(s: string)
    ensures Words(Collapse(s)) == Words(s)
    decreases |s|
  {
    if s != [] {
      if IsSpace(s[0]) {
        CollapseWords(SkipSpaces(s));
        CollapseWordsSpace(s);
      } else {
        CollapseWords(s[1..]);
        CollapseWordsChar(s);
      }
    }
  }

  lemma CollapseWordsSpace(s: string)
    requires s != [] && IsSpace(s[0])
    requires Words(Collapse(SkipSpaces(s))) == Words(SkipSpaces(s))
    ensures Words(Collapse(s)) == Words(s)
  {
    var t := SkipSpaces(s);
    assert Collapse(s) == [' '] + Collapse(t);
    WordsSpaceCons(' ', Collapse(t));
    WordsSkip(s);
  }

  lemma CollapseWordsChar(s: string)
    requires s != [] && !IsSpace(s[0])
    requires Words(Collapse(s[1..])) == Words(s[1..])
    ensures Words(Collapse(s)) == Words(s)
  {
    var rest := Collapse(s[1..]);
    assert Collapse(s) == [s[0]] + rest;
    HeadTail(s);
    WordsWordCons(s[0], rest);
    WordsWordCons(s[0], s[1..]);
  }

  /** s is not empty and ends with whitespace. */
  predicate EndsWithSpace(s: string) {
    s != [] && IsSpace(s[|s| - 1])
  }

  /** Collapsing keeps whitespace at the end of s exactly when s ends with whitespace. */
  lemma {:induction false} CollapseLast(s: string)
    ensures EndsWithSpace(Collapse(s)) <==> EndsWithSpace(s)
    decreases |s|
  {
    if s != [] {
      if IsSpace(s[0]) {
        CollapseLast(SkipSpaces(s));
        CollapseLastSpace(s);
      } else {
        CollapseLast(s[1..]);
        CollapseLastChar(s);
      }
    }
  }

  lemma CollapseLastSpace(s: string)
    requires s != [] && IsSpace(s[0])
    requires EndsWithSpace(Collapse(SkipSpaces(s))) <==> EndsWithSpace(SkipSpaces(s))
    ensures EndsWithSpace(Collapse(s)) <==> EndsWithSpace(s)
  {
    var t := SkipSpaces(s);
    CollapseSpaceStep(s);
    EndsWithSpaceCons(' ', Collapse(t));
    if t != [] {
      SuffixLast(s, t);
    } else {
      SkipSpacesAll(s);
    }
  }

  lemma CollapseLastChar(s: string)
    requires s != [] && !IsSpace(s[0])
    requires EndsWithSpace(Collapse(s[1..])) <==> EndsWithSpace(s[1..])
    ensures EndsWithSpace(Collapse(s)) <==> EndsWithSpace(s)
  {
    assert Collapse(s) == [s[0]] + Collapse(s[1..]);
    EndsWithSpaceCons(s[0], Collapse(s[1..]));
    if s[1..] != [] {
      SuffixLast(s, s[1..]);
    }
  }

  lemma CollapseSpaceStep(s: string)
    requires s != [] && IsSpace(s[0])
    ensures Collapse(s) == [' '] + Collapse(SkipSpaces(s))
  {
  }

  lemma EndsWithSpaceCons(c: char, x: string)
    ensures EndsWithSpace([c] + x) <==> if x == [] then IsSpace(c) else EndsWithSpace(x)
  {
    if x != [] {
      ConsLast(c, x);
    }
  }

  /** `str.strip()`: whitespace removed from both ends. */
  function Strip(s: string): string {
    StripEnd(SkipSpaces(s))
  }

  /** Stripping a collapsed string leaves the normal form with the same non-whitespace characters. */
  lemma StripCollapsed(s: string)
    requires Collapsed(s)
    ensures SingleSpaced(Strip(s)) && NonSpace(Strip(s)) == NonSpace(s)
  {
    var t := SkipSpaces(s);
    var r := StripEnd(t);
    assert Collapsed(t) by {
      forall i | 0 <= i < |t| && IsSpace(t[i])
        ensures t[i] == ' ' && (i + 1 < |t| ==> !IsSpace(t[i + 1]))
      {
        assert t[i] == s[|s| - |t| + i];
        if i + 1 < |t| {
          assert t[i + 1] == s[|s| - |t| + i + 1];
        }
      }
    }
    assert Collapsed(r) by {
      forall i | 0 <= i < |r| && IsSpace(r[i])
        ensures r[i] == ' ' && (i + 1 < |r| ==> !IsSpace(r[i + 1]))
      {
        assert r[i] == t[i];
        if i + 1 < |r| {
          assert r[i + 1] == t[i + 1];
        }
      }
    }
    if r != [] {
      assert r[0] == t[0];
    }
  }

  /** On a collapsed string, collapsing changes nothing. */
  lemma {:induction false} CollapseFixed(s: string)
    requires Collapsed(s)
    ensures Collapse(s) == s
    decreases |s|
  {
    if s != [] {
      var tail := s[1..];
      assert Collapsed(tail) by {
        forall i | 0 <= i < |tail| && IsSpace(tail[i])
          ensures tail[i] == ' ' && (i + 1 < |tail| ==> !IsSpace(tail[i + 1]))
        {
          assert tail[i] == s[i + 1];
          if i + 1 < |tail| {
            assert tail[i + 1] == s[i + 2];
          }
        }
      }
      CollapseFixed(tail);
      assert s == [s[0]] + tail;
      if IsSpace(s[0]) {
        assert s[0] == ' ';
        assert tail == [] || !IsSpace(tail[0]);
        assert SkipSpaces(s) == SkipSpaces(tail) == tail;
        assert Collapse(s) == [' '] + Collapse(tail);
      } else {
        assert Collapse(s) == [s[0]] + Collapse(tail);
      }
    }
  }

  /** The whole text normalisation, before the emptiness check. */
  function Normalized(s: string): string {
    Strip(Collapse(s))
  }

  /** The normal form is exactly the set of fixed points of the normalisation. */
  lemma NormalizedFixed(s: string)
    requires SingleSpaced(s)
    ensures Normalized(s) == s
  {
    CollapseFixed(s);
    assert SkipSpaces(s) == s;
    assert StripEnd(s) == s;
  }

  lemma HeadTail<T>(s: seq<T>)
    requires s != []
    ensures s == [s[0]] + s[1..]
  {
  }

  lemma TailSuffix<T>(s: seq<T>, r: seq<T>)
    requires s != [] && |r| <= |s| - 1 && r == s[1..][|s| - 1 - |r|..]
    ensures r == s[|s| - |r|..]
  {
  }

  lemma ZeroSlices<T>(s: seq<T>)
    ensures s[..0] == [] && s[0..] == s
  {
  }

  lemma WholeSlices<T>(r: seq<T>, n: nat)
    requires n == |r|
    ensures r[..n] == r && r[n..] == []
  {
  }

  lemma ConsSlices<T>(c: T, s: seq<T>, m: nat)
    requires m <= |s|
    ensures ([c] + s)[0] == c && ([c] + s)[1..] == s
    ensures ([c] + s)[..1 + m] == [c] + s[..m] && ([c] + s)[1 + m..] == s[m..]
  {
  }

  lemma ConsLast<T>(c: T, s: seq<T>)
    requires s != []
    ensures ([c] + s)[|s|] == s[|s| - 1]
  {
  }

  lemma SuffixLast<T>(s: seq<T>, t: seq<T>)
    requires |t| <= |s| && t == s[|s| - |t|..] && t != []
    ensures t[|t| - 1] == s[|s| - 1]
  {
  }

  lemma SplitAround<T>(r: seq<T>, n: nat)
    requires n < |r|
    ensures r[n..] == [r[n]] + r[n + 1..]
    ensures r == r[..n] + [r[n]] + r[n + 1..]
  {
  }

  /** A non-empty suffix of a text in normal form that starts after a space is in normal form. */
  lemma SingleSpacedSuffix(r: string, k: nat)
    requires SingleSpaced(r) && 0 < k < |r| && IsSpace(r[k - 1])
    ensures SingleSpaced(r[k..])
  {
    var rest := r[k..];
    forall i | 0 <= i < |rest| && IsSpace(rest[i])
      ensures rest[i] == ' ' && (i + 1 < |rest| ==> !IsSpace(rest[i + 1]))
    {
      assert rest[i] == r[k + i];
      if i + 1 < |rest| {
        assert rest[i + 1] == r[k + i + 1];
      }
    }
    assert rest[0] == r[k] && rest[|rest| - 1] == r[|r| - 1];
  }

  /** In a text in normal form, a space is followed by a word. */
  lemma SpaceAfterWord(r: string, n: nat)
    requires SingleSpaced(r) && n < |r| && IsSpace(r[n])
    ensures r[n] == ' ' && n + 1 < |r| && !IsSpace(r[n + 1])
  {
  }

  /** A text that starts with a word has that word first. */
  lemma WordsOfWordStart(r: string)
    requires r != [] && !IsSpace(r[0])
    ensures Words(r) == [r[..WordLength(r)]] + Words(r[WordLength(r)..])
  {
    assert SkipSpaces(r) == r;
  }

  /** The first word of r, one space, then a text whose words join back to it. */
  lemma JoinAfterWord(r: string, n: nat)
    requires n + 1 < |r| && r[n] == ' ' && !IsSpace(r[n + 1])
    requires Words(r) == [r[..n]] + Words(r[n..])
    requires JoinSpaced(Words(r[n + 1..])) == r[n + 1..]
    ensures JoinSpaced(Words(r)) == r
  {
    var rest := r[n + 1..];
    SplitAround(r, n);
    WordsSpaceCons(r[n], rest);
    WordsOfWordStart(rest);
    var ws := Words(rest);
    assert ([r[..n]] + ws)[1..] == ws;
    assert JoinSpaced([r[..n]] + ws) == r[..n] + " " + JoinSpaced(ws);
  }

  /** A text in normal form is its words joined by single spaces. */
  lemma {:induction false} SingleSpacedWords(r: string)
    requires SingleSpaced(r)
    ensures JoinSpaced(Words(r)) == r
    decreases |r|
  {
    if r != [] {
      var n := WordLength(r);
      WordsOfWordStart(r);
      if n < |r| {
        SpaceAfterWord(r, n);
        SingleSpacedSuffix(r, n + 1);
        SingleSpacedWords(r[n + 1..]);
        JoinAfterWord(r, n);
      } else {
        WholeSlices(r, n);
      }
    }
  }

  /**
   * What normalisation gives: the input's words joined by single spaces
   * (`" ".join(s.split())`), so the normal form with the input's
   * non-whitespace characters, empty exactly when the input has no word.
   */
  lemma NormalizedShape(s: string)
    ensures Normalized(s) == JoinSpaced(Words(s))
    ensures SingleSpaced(Normalized(s)) && NonSpace(Normalized(s)) == NonSpace(s)
    ensures Normalized(s) == [] <==> NonSpace(s) == []
    ensures Normalized(s) == [] <==> Words(s) == []
  {
    StripCollapsed(Collapse(s));
    var r := Normalized(s);
    if r != [] {
      assert NonSpace(r) == [r[0]] + NonSpace(r[1..]);
    }
    CollapseWords(s);
    WordsSkip(Collapse(s));
    WordsStripEnd(SkipSpaces(Collapse(s)));
    assert Words(r) == Words(s);
    SingleSpacedWords(r);
  }

  /**
   * The str-level normalisation: `re.sub(r"\s+", " ", s).strip()`, raising
   * `ValueError(s)` when nothing is left.
   */
  function NormalizeString(s: string): (r: Result<string, Error>)
    ensures r.Success? <==> NonSpace(s) != []
    ensures r.Success? ==> r.value != [] && SingleSpaced(r.value) && NonSpace(r.value) == NonSpace(s)
    ensures r.Failure? ==> r.error == ValueError(StrValue(s))
  {
    NormalizedShape(s);
    var result := Normalized(s);
    if result == [] then Failure(ValueError(StrValue(s))) else Success(result)
  }

  /**
   * The value `normalize_string` returns: a str normalises exactly when it
   * has a word, and then to its words joined by single spaces,
   * `" ".join(s.split())`.
   */
  lemma NormalizeStringWords(s: string)
    ensures NormalizeString(s).Success? <==> Words(s) != []
    ensures NormalizeString(s).Success? ==> NormalizeString(s).value == JoinSpaced(Words(s))
  {
    NormalizedShape(s);
  }

  /** A string already in normal form is returned unchanged, so normalising twice equals normalising once. */
  lemma NormalizeStringIdempotent(s: string)
    ensures SingleSpaced(s) && s != [] ==> NormalizeString(s) == Success(s)
    ensures NormalizeString(s).Success? ==> NormalizeString(NormalizeString(s).value) == NormalizeString(s)
  {
    if SingleSpaced(s) && s != [] {
      NormalizedFixed(s);
    }
    var r := NormalizeString(s);
    if r.Success? {
      NormalizedFixed(r.value);
    }
  }

  /**
   * `parse_string` / event `normalize_string`: a value that is not a str is
   * refused with a TypeError, a str is normalised.
   */
  function ParseString(v: Value): (r: Result<string, Error>)
    ensures !v.StrValue? ==> r == Failure(TypeError(v, StrClass))
    ensures v.StrValue? ==> r == NormalizeString(v.s)
  {
    match v
    case StrValue(s) => NormalizeString(s)
    case _ => Failure(TypeError(v, StrClass))
  }
}
