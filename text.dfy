/**
 * Character classes and the string operations the parser relies on:
 * Python's str.isspace set, strip, the whitespace-collapsing normalize_line,
 * str.split on one separator, splitlines, and the page-line list.
 */
module Text {

  const NBSP: char := '\U{a0}'

  /** Python's whitespace (str.isspace, and what \s matches in a str pattern). */
  predicate IsSpace(c: char) {
    || c == ' '
    || '\t' <= c <= '\r'
    || '\U{1c}' <= c <= '\U{1f}'
    || c == '\U{85}' || c == '\U{a0}' || c == '\U{1680}'
    || '\U{2000}' <= c <= '\U{200a}'
    || c == '\U{2028}' || c == '\U{2029}' || c == '\U{202f}' || c == '\U{205f}' || c == '\U{3000}'
  }

  /** The characters at which str.splitlines breaks a text. */
  predicate IsLineBreak(c: char) {
    || c == '\n' || c == '\r' || c == '\U{b}' || c == '\U{c}'
    || '\U{1c}' <= c <= '\U{1e}'
    || c == '\U{85}' || c == '\U{2028}' || c == '\U{2029}'
  }

  predicate StartsWith(s: string, prefix: string) {
    |prefix| <= |s| && s[..|prefix|] == prefix
  }

  /** The characters of s that are not whitespace, in order. */
  function NonSpace(s: string): string {
    if s == [] then [] else (if IsSpace(s[0]) then [] else [s[0]]) + NonSpace(s[1..])
  }

  lemma {:induction false} NonSpaceAppend(a: string, b: string)
    ensures NonSpace(a + b) == NonSpace(a) + NonSpace(b)
  {
    if a == [] {
      assert a + b == b;
    } else {
      assert (a + b)[0] == a[0];
      assert (a + b)[1..] == a[1..] + b;
      NonSpaceAppend(a[1..], b);
    }
  }

  /** s with its leading whitespace removed. */
  function DropLeading(s: string): (r: string)
    ensures |r| <= |s| && r == s[|s| - |r|..]
    ensures s != [] && IsSpace(s[0]) ==> |r| < |s|
    ensures r == [] || !IsSpace(r[0])
  {
    if s != [] && IsSpace(s[0]) then DropLeading(s[1..]) else s
  }

  lemma {:induction false} DropLeadingNonSpace(s: string)
    ensures NonSpace(DropLeading(s)) == NonSpace(s)
  {
    if s != [] && IsSpace(s[0]) {
      DropLeadingNonSpace(s[1..]);
    }
  }

  /** s with its trailing whitespace removed. */
  function DropTrailing(s: string): (r: string)
    ensures |r| <= |s| && r == s[..|r|]
    ensures r == [] || !IsSpace(r[|r| - 1])
  {
    if s != [] && IsSpace(s[|s| - 1]) then DropTrailing(s[..|s| - 1]) else s
  }

  lemma {:induction false} DropTrailingNonSpace(s: string)
    ensures NonSpace(DropTrailing(s)) == NonSpace(s)
  {
    if s != [] && IsSpace(s[|s| - 1]) {
      DropTrailingNonSpace(s[..|s| - 1]);
      NonSpaceAppend(s[..|s| - 1], [s[|s| - 1]]);
      assert s == s[..|s| - 1] + [s[|s| - 1]];
    }
  }

  /** Every character of s is whitespace. */
  predicate AllSpace(s: string) {
    forall k :: 0 <= k < |s| ==> IsSpace(s[k])
  }

  /** Trailing whitespace added to a string that does not end in whitespace is all removed. */
  lemma {:induction false} DropTrailingSpaces(a: string, sp: string)
    requires (a == [] || !IsSpace(a[|a| - 1])) && AllSpace(sp)
    ensures DropTrailing(a + sp) == a
    decreases |sp|
  {
    if sp == [] {
      assert a + sp == a;
    } else {
      var s := a + sp;
      assert s[|s| - 1] == sp[|sp| - 1];
      assert s[..|s| - 1] == a + sp[..|sp| - 1];
      DropTrailingSpaces(a, sp[..|sp| - 1]);
    }
  }

  /** What DropTrailing removes is whitespace. */
  lemma {:induction false} DropTrailingRest(s: string)
    ensures AllSpace(s[|DropTrailing(s)|..])
    decreases |s|
  {
    if s != [] && IsSpace(s[|s| - 1]) {
      var t := s[..|s| - 1];
      DropTrailingRest(t);
      var n := |DropTrailing(t)|;
      assert s[n..] == t[n..] + [s[|s| - 1]];
    }
  }

  /** Python's str.strip() with no argument. */
  function Strip(s: string): (r: string)
    ensures r == [] || (!IsSpace(r[0]) && !IsSpace(r[|r| - 1]))
  {
    DropTrailing(DropLeading(s))
  }

  /** strip takes out whitespace only. */
  lemma {:induction false} StripNonSpace(s: string)
    ensures NonSpace(Strip(s)) == NonSpace(s)
  {
    DropLeadingNonSpace(s);
    DropTrailingNonSpace(DropLeading(s));
  }

  lemma {:induction false} StripUnspaced(s: string)
    requires s == [] || (!IsSpace(s[0]) && !IsSpace(s[|s| - 1]))
    ensures Strip(s) == s
  {
  }

  /** Every character of Strip(s) occurs in s. */
  lemma {:induction false} StripChars(s: string, i: nat)
    requires i < |Strip(s)|
    ensures Strip(s)[i] in s
  {
    var d := DropLeading(s);
    assert Strip(s)[i] == d[i] == s[|s| - |d| + i];
  }

  /** Whitespace only as plain spaces, and never two in a row. */
  ghost predicate SingleSpaced(s: string) {
    && (forall i :: 0 <= i < |s| && IsSpace(s[i]) ==> s[i] == ' ')
    && (forall i, j :: 0 <= i < j < |s| && j == i + 1 ==> !(s[i] == ' ' && s[j] == ' '))
  }

  lemma {:induction false} SingleSpacedSuffix(s: string, k: nat)
    requires SingleSpaced(s) && k <= |s|
    ensures SingleSpaced(s[k..])
  {
    var t := s[k..];
    forall i, j | 0 <= i < j < |t| && j == i + 1 ensures !(t[i] == ' ' && t[j] == ' ') {
      assert t[i] == s[k + i] && t[j] == s[k + j];
    }
  }

  lemma {:induction false} SingleSpacedPrefix(s: string, k: nat)
    requires SingleSpaced(s) && k <= |s|
    ensures SingleSpaced(s[..k])
  {
  }

  /** What normalize_line guarantees of every line it returns. */
  ghost predicate Normalized(s: string) {
    SingleSpaced(s) && (s == [] || (!IsSpace(s[0]) && !IsSpace(s[|s| - 1])))
  }

  /** line.replace("\xa0", " ") */
  function ReplaceNbsp(s: string): (r: string)
    ensures |r| == |s| && NBSP !in r
  {
    if s == [] then [] else [if s[0] == NBSP then ' ' else s[0]] + ReplaceNbsp(s[1..])
  }

  lemma {:induction false} ReplaceNbspNonSpace(s: string)
    ensures NonSpace(ReplaceNbsp(s)) == NonSpace(s)
  {
    if s != [] {
      var r := ReplaceNbsp(s);
      assert r[0] == (if s[0] == NBSP then ' ' else s[0]);
      assert r[1..] == ReplaceNbsp(s[1..]);
      ReplaceNbspNonSpace(s[1..]);
    }
  }

  lemma {:induction false} ReplaceNbspNone(s: string)
    requires NBSP !in s
    ensures ReplaceNbsp(s) == s
  {
    if s != [] {
      ReplaceNbspNone(s[1..]);
      assert [s[0]] + s[1..] == s;
    }
  }

  /** re.sub(r"\s+", " ", s): every maximal run of whitespace becomes one space. */
  function Collapse(s: string): (r: string)
    ensures SingleSpaced(r)
    ensures |r| == 0 <==> |s| == 0
    ensures |r| > 0 ==> (IsSpace(r[0]) <==> IsSpace(s[0]))
    decreases |s|
  {
    if s == [] then []
    else if IsSpace(s[0]) then
      var rest := Collapse(DropLeading(s));
      var r := [' '] + rest;
      assert r[1..] == rest;
      assert forall i :: 1 <= i < |r| ==> r[i] == rest[i - 1];
      r
    else
      var rest := Collapse(s[1..]);
      var r := [s[0]] + rest;
      assert r[1..] == rest;
      assert forall i :: 1 <= i < |r| ==> r[i] == rest[i - 1];
      r
  }

  lemma {:induction false} CollapseNonSpace(s: string)
    ensures NonSpace(Collapse(s)) == NonSpace(s)
    decreases |s|
  {
    if s != [] {
      if IsSpace(s[0]) {
        var d := DropLeading(s);
        CollapseNonSpace(d);
        DropLeadingNonSpace(s);
        var r := Collapse(s);
        assert r == [' '] + Collapse(d);
        assert r[1..] == Collapse(d);
      } else {
        CollapseNonSpace(s[1..]);
        var r := Collapse(s);
        assert r[0] == s[0] && r[1..] == Collapse(s[1..]);
      }
    }
  }

  /** Collapse leaves a single-spaced text as it is. */
  lemma {:induction false} CollapseSingleSpaced(s: string)
    requires SingleSpaced(s)
    ensures Collapse(s) == s
    decreases |s|
  {
    if s != [] {
      assert SingleSpaced(s[1..]) by {
        forall i, j | 0 <= i < j < |s[1..]| && j == i + 1 ensures !(s[1..][i] == ' ' && s[1..][j] == ' ') {
          assert s[1..][i] == s[i + 1] && s[1..][j] == s[j + 1];
        }
      }
      CollapseSingleSpaced(s[1..]);
      if IsSpace(s[0]) {
        assert s[0] == ' ';
        assert s[1..] == [] || !IsSpace(s[1..][0]);
        assert DropLeading(s[1..]) == s[1..];
        assert DropLeading(s) == s[1..];
        assert Collapse(s) == [' '] + s[1..];
      } else {
        assert Collapse(s) == [s[0]] + s[1..];
      }
      assert [s[0]] + s[1..] == s;
    }
  }

  /** normalize_line: NBSP to space, whitespace runs to one space, then strip. */
  function NormalizeLine(line: string): (r: string)
    ensures r == [] || (!IsSpace(r[0]) && !IsSpace(r[|r| - 1]))
  {
    Strip(Collapse(ReplaceNbsp(line)))
  }

  /** What normalize_line returns is normalized and free of NBSP. */
  lemma {:induction false} NormalizeLineNormalized(line: string)
    ensures Normalized(NormalizeLine(line))
    ensures NBSP !in NormalizeLine(line)
  {
    var n := ReplaceNbsp(line);
    var c := Collapse(n);
    var d := DropLeading(c);
    assert Normalized(NormalizeLine(line)) by {
      SingleSpacedSuffix(c, |c| - |d|);
      SingleSpacedPrefix(d, |DropTrailing(d)|);
    }
    forall i | 0 <= i < |NormalizeLine(line)| ensures NormalizeLine(line)[i] != NBSP {
      StripChars(c, i);
    }
  }

  /** normalize_line only ever touches whitespace: the other characters stay, in order. */
  lemma {:induction false} NormalizeKeepsNonSpace(line: string)
    ensures NonSpace(NormalizeLine(line)) == NonSpace(line)
  {
    var n := ReplaceNbsp(line);
    ReplaceNbspNonSpace(line);
    CollapseNonSpace(n);
    StripNonSpace(Collapse(n));
  }

  /** normalize_line returns an already-normalized line unchanged. */
  lemma {:induction false} NormalizeFixesNormalized(s: string)
    requires Normalized(s)
    ensures NormalizeLine(s) == s
  {
    assert ReplaceNbsp(s) == s by {
      forall i | 0 <= i < |s| ensures s[i] != NBSP {
        if IsSpace(s[i]) {
          assert s[i] == ' ';
        }
      }
      ReplaceNbspNone(s);
    }
    assert Collapse(s) == s by {
      CollapseSingleSpaced(s);
    }
    assert Strip(s) == s by {
      StripUnspaced(s);
    }
  }

  /** normalize_line is idempotent. */
  lemma {:induction false} NormalizeIdempotent(s: string)
    ensures NormalizeLine(NormalizeLine(s)) == NormalizeLine(s)
  {
    NormalizeLineNormalized(s);
    NormalizeFixesNormalized(NormalizeLine(s));
  }

  /** The concatenation of a list of strings. */
  function Flatten(ls: seq<string>): string {
    if ls == [] then [] else ls[0] + Flatten(ls[1..])
  }

  /** s with every occurrence of c taken out (s.replace(c, "")). */
  function Remove(s: string, c: char): (r: string)
    ensures c !in r
    ensures |r| <= |s|
  {
    if s == [] then [] else (if s[0] == c then [] else [s[0]]) + Remove(s[1..], c)
  }

  /** s.split(sep): the pieces between occurrences of sep, empty pieces included. */
  function Split(s: string, sep: char): (r: seq<string>)
    ensures |r| >= 1
  {
    if s == [] then [[]]
    else
      var rest := Split(s[1..], sep);
      if s[0] == sep then [[]] + rest
      else [[s[0]] + rest[0]] + rest[1..]
  }

  /** Joining the pieces of a split gives the text without its separators. */
  lemma {:induction false} SplitFlatten(s: string, sep: char)
    ensures Flatten(Split(s, sep)) == Remove(s, sep)
  {
    if s != [] {
      var rest := Split(s[1..], sep);
      SplitFlatten(s[1..], sep);
      if s[0] != sep {
        var r := Split(s, sep);
        assert r[1..] == rest[1..];
        assert Flatten(rest) == rest[0] + Flatten(rest[1..]);
      }
    }
  }

  lemma {:induction false} SplitNoSep(s: string, sep: char)
    requires sep !in s
    ensures Split(s, sep) == [s]
  {
    if s != [] {
      SplitNoSep(s[1..], sep);
      assert [s[0]] + s[1..] == s;
    }
  }

  /** Splitting at a separator that follows a separator-free prefix. */
  lemma {:induction false} SplitAppend(a: string, sep: char, b: string)
    requires sep !in a
    ensures Split(a + [sep] + b, sep) == [a] + Split(b, sep)
  {
    if a == [] {
      assert [sep] + b == a + [sep] + b;
      assert ([sep] + b)[1..] == b;
    } else {
      assert (a + [sep] + b)[1..] == a[1..] + [sep] + b;
      SplitAppend(a[1..], sep, b);
      assert a == [a[0]] + a[1..];
    }
  }

  lemma {:induction false} RemoveAbsent(s: string, c: char)
    requires c !in s
    ensures Remove(s, c) == s
  {
    if s != [] {
      RemoveAbsent(s[1..], c);
      assert [s[0]] + s[1..] == s;
    }
  }

  lemma {:induction false} RemoveAppend(a: string, b: string, c: char)
    ensures Remove(a + b, c) == Remove(a, c) + Remove(b, c)
  {
    if a == [] {
      assert a + b == b;
    } else {
      assert (a + b)[0] == a[0];
      assert (a + b)[1..] == a[1..] + b;
      RemoveAppend(a[1..], b, c);
    }
  }

  /** Taking out the one separator between two separator-free texts joins them. */
  lemma {:induction false} RemoveAround(a: string, c: char, b: string)
    requires c !in a && c !in b
    ensures Remove(a + [c] + b, c) == a + b
  {
    RemoveAppend(a + [c], b, c);
    RemoveAppend(a, [c], c);
    RemoveAbsent(a, c);
    RemoveAbsent(b, c);
    assert Remove([c], c) == [];
    assert Remove(a + [c], c) == a;
  }

  /** Remove keeps exactly the other characters. */
  lemma {:induction false} RemoveMember(s: string, c: char, x: char)
    ensures x in Remove(s, c) <==> x in s && x != c
  {
    if s != [] {
      RemoveMember(s[1..], c, x);
      assert s == [s[0]] + s[1..];
    }
  }

  lemma {:induction false} NonSpaceMember(s: string, x: char)
    ensures x in NonSpace(s) <==> x in s && !IsSpace(x)
  {
    if s != [] {
      NonSpaceMember(s[1..], x);
      assert s == [s[0]] + s[1..];
    }
  }

  /** Strip takes out whitespace only. */
  lemma {:induction false} StripMember(s: string, x: char)
    ensures x in Strip(s) ==> x in s
    ensures x in s && !IsSpace(x) ==> x in Strip(s)
  {
    NonSpaceMember(s, x);
    NonSpaceMember(Strip(s), x);
    StripNonSpace(s);
    if x in Strip(s) {
      var i :| 0 <= i < |Strip(s)| && Strip(s)[i] == x;
      StripChars(s, i);
    }
  }

  lemma {:induction false} FlattenMember(ls: seq<string>, x: char)
    requires x in Flatten(ls)
    ensures exists k :: 0 <= k < |ls| && x in ls[k]
  {
    if ls != [] && x !in ls[0] {
      FlattenMember(ls[1..], x);
      var k :| 0 <= k < |ls[1..]| && x in ls[1..][k];
      assert x in ls[k + 1];
    }
  }

  /** Splitting at a separator that precedes a separator-free suffix. */
  lemma {:induction false} SplitSnoc(a: string, sep: char, b: string)
    requires sep !in b
    ensures Split(a + [sep] + b, sep) == Split(a, sep) + [b]
  {
    if a == [] {
      assert a + [sep] + b == [sep] + b;
      assert ([sep] + b)[1..] == b;
      SplitNoSep(b, sep);
    } else {
      assert (a + [sep] + b)[0] == a[0];
      assert (a + [sep] + b)[1..] == a[1..] + [sep] + b;
      SplitSnoc(a[1..], sep, b);
    }
  }

  /**
   * str.splitlines, with one difference that never matters here: a "\r\n" pair is
   * split as two breaks and a trailing break leaves a final empty piece; both only
   * add empty lines, which the page-line list drops.
   */
  function SplitLines(text: string): (r: seq<string>)
    ensures |r| >= 1
    ensures forall k, j :: 0 <= k < |r| && 0 <= j < |r[k]| ==> !IsLineBreak(r[k][j])
  {
    if text == [] then [[]]
    else
      var rest := SplitLines(text[1..]);
      if IsLineBreak(text[0]) then [[]] + rest
      else
        var r := [[text[0]] + rest[0]] + rest[1..];
        assert forall k :: 1 <= k < |r| ==> r[k] == rest[k];
        r
  }

  /** A text without line breaks is one line. */
  lemma {:induction false} SplitLinesNoBreak(a: string)
    requires forall j :: 0 <= j < |a| ==> !IsLineBreak(a[j])
    ensures SplitLines(a) == [a]
  {
    if a != [] {
      SplitLinesNoBreak(a[1..]);
      assert [a[0]] + a[1..] == a;
    }
  }

  /**
   * Splitting at the first line break: the text before it is the first line, and the
   * lines of the rest follow in order.
   */
  lemma {:induction false} SplitLinesBreak(a: string, c: char, b: string)
    requires IsLineBreak(c)
    requires forall j :: 0 <= j < |a| ==> !IsLineBreak(a[j])
    ensures SplitLines(a + [c] + b) == [a] + SplitLines(b)
  {
    var t := a + [c] + b;
    if a == [] {
      assert t[0] == c && t[1..] == b;
    } else {
      assert t[0] == a[0];
      assert t[1..] == a[1..] + [c] + b;
      SplitLinesBreak(a[1..], c, b);
      assert [a[0]] + a[1..] == a;
    }
  }

  /** The non-empty strings of ls, in order. */
  function DropEmpty(ls: seq<string>): (r: seq<string>)
    ensures |r| <= |ls|
    ensures forall k :: 0 <= k < |r| ==> r[k] != [] && r[k] in ls
  {
    if ls == [] then []
    else
      var rest := DropEmpty(ls[1..]);
      assert forall x :: x in rest ==> x in ls;
      (if ls[0] == [] then [] else [ls[0]]) + rest
  }

  /** Dropping empty strings keeps order: it distributes over concatenation. */
  lemma {:induction false} DropEmptyAppend(a: seq<string>, b: seq<string>)
    ensures DropEmpty(a + b) == DropEmpty(a) + DropEmpty(b)
  {
    if a == [] {
      assert a + b == b;
    } else {
      assert (a + b)[0] == a[0];
      assert (a + b)[1..] == a[1..] + b;
      DropEmptyAppend(a[1..], b);
    }
  }

  /** A list without empty strings passes through unchanged. */
  lemma {:induction false} DropEmptyNone(ls: seq<string>)
    requires forall k :: 0 <= k < |ls| ==> ls[k] != []
    ensures DropEmpty(ls) == ls
  {
    if ls != [] {
      DropEmptyNone(ls[1..]);
      assert [ls[0]] + ls[1..] == ls;
    }
  }

  /** [f(l) for l in ls] */
  function MapLines(f: string -> string, ls: seq<string>): (r: seq<string>)
    ensures |r| == |ls|
  {
    if ls == [] then [] else [f(ls[0])] + MapLines(f, ls[1..])
  }

  lemma {:induction false} MapLinesAt(f: string -> string, ls: seq<string>, k: nat)
    requires k < |ls|
    ensures MapLines(f, ls)[k] == f(ls[k])
  {
    if k > 0 {
      MapLinesAt(f, ls[1..], k - 1);
      assert ls[1..][k - 1] == ls[k];
    }
  }

  lemma {:induction false} MapLinesAppend(f: string -> string, a: seq<string>, b: seq<string>)
    ensures MapLines(f, a + b) == MapLines(f, a) + MapLines(f, b)
  {
    if a == [] {
      assert a + b == b;
    } else {
      assert (a + b)[0] == a[0];
      assert (a + b)[1..] == a[1..] + b;
      MapLinesAppend(f, a[1..], b);
    }
  }

  /** [normalize_line(l) for l in raw if normalize_line(l)] */
  function NormalizedLines(raw: seq<string>): (r: seq<string>)
    ensures forall k :: 0 <= k < |r| ==> r[k] != []
  {
    DropEmpty(MapLines(NormalizeLine, raw))
  }

  /** Every line kept is normalized. */
  lemma {:induction false} NormalizedLinesNormalized(raw: seq<string>)
    ensures forall k :: 0 <= k < |NormalizedLines(raw)| ==> Normalized(NormalizedLines(raw)[k])
  {
    var n := MapLines(NormalizeLine, raw);
    var r := NormalizedLines(raw);
    assert forall x :: x in n ==> Normalized(x) by {
      forall k | 0 <= k < |n| ensures Normalized(n[k]) {
        MapLinesAt(NormalizeLine, raw, k);
        NormalizeLineNormalized(raw[k]);
      }
    }
    forall k | 0 <= k < |r| ensures Normalized(r[k]) {
      assert r[k] in n;
    }
  }

  /** The page-line list keeps source order: it distributes over concatenation. */
  lemma {:induction false} NormalizedLinesAppend(a: seq<string>, b: seq<string>)
    ensures NormalizedLines(a + b) == NormalizedLines(a) + NormalizedLines(b)
  {
    MapLinesAppend(NormalizeLine, a, b);
    DropEmptyAppend(MapLines(NormalizeLine, a), MapLines(NormalizeLine, b));
  }

  /** A list of already-normalized non-empty lines passes through unchanged. */
  lemma {:induction false} NormalizedLinesFixed(ls: seq<string>)
    requires forall k :: 0 <= k < |ls| ==> ls[k] != [] && Normalized(ls[k])
    ensures NormalizedLines(ls) == ls
  {
    forall k | 0 <= k < |ls| ensures MapLines(NormalizeLine, ls)[k] == ls[k] {
      MapLinesAt(NormalizeLine, ls, k);
      NormalizeFixesNormalized(ls[k]);
    }
    assert MapLines(NormalizeLine, ls) == ls;
    DropEmptyNone(ls);
  }

  /** The normalized, non-empty lines of a page text, in order. */
  function PageLines(text: string): (r: seq<string>)
    ensures forall k :: 0 <= k < |r| ==> r[k] != []
  {
    NormalizedLines(SplitLines(text))
  }

  /**
   * The page lines keep the text's order: the lines of the text before a line break come
   * first, then the lines of the text after it.
   */
  lemma {:induction false} PageLinesBreak(a: string, c: char, b: string)
    requires IsLineBreak(c)
    requires forall j :: 0 <= j < |a| ==> !IsLineBreak(a[j])
    ensures PageLines(a + [c] + b) == PageLines(a) + PageLines(b)
  {
    SplitLinesBreak(a, c, b);
    SplitLinesNoBreak(a);
    NormalizedLinesAppend([a], SplitLines(b));
  }
}
