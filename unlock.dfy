/**
 * extract_bp_from_two_lines and the candidate-line test of the blueprint scan:
 * the slash-separated requirement run, the parenthesised total, and the key glyph.
 */
module Unlock {
  import opened Basics
  import opened Text
  import opened Numbers
  import opened Runs

  /** The key glyph that marks a car unlocked with keys instead of blueprints. */
  const KEY: char := '\U{1f511}'

  /** What extract_bp_from_two_lines returns when it finds requirements. */
  datatype BpInfo = BpInfo(requirements: seq<nat>, total: Option<nat>)

  /** line1.replace("🔑", "").replace("+", "") */
  function CleanRequirementLine(s: string): (r: string)
    ensures KEY !in r && '+' !in r
  {
    RemoveMember(Remove(s, KEY), '+', KEY);
    Remove(Remove(s, KEY), '+')
  }

  /** From a digit at i: the end of \d+(?:/\d+)*, taking every further "/digits". */
  function ChainEnd(s: string, i: nat): (j: nat)
    requires i < |s| && IsDigit(s[i])
    ensures i < j <= |s|
    decreases |s| - i
  {
    var e := RunEnd(s, i, Digits);
    if e + 1 < |s| && s[e] == '/' && IsDigit(s[e + 1]) then ChainEnd(s, e + 1) else e
  }

  /** \d+(?:/\d+)+ can start at i: a digit run there is followed by "/" and a digit. */
  predicate SlashStartsAt(s: string, i: nat) {
    && i < |s| && IsDigit(s[i])
    && var e := RunEnd(s, i, Digits);
       e + 1 < |s| && s[e] == '/' && IsDigit(s[e + 1])
  }

  /** re.search(r"(\d+(?:/\d+)+)", s[i..]): the span of the first match. */
  function SlashRunFrom(s: string, i: nat): (r: Option<(nat, nat)>)
    requires i <= |s|
    ensures r.Some? ==> var (a, b) := r.value;
      && i <= a && SlashStartsAt(s, a) && b == ChainEnd(s, a)
      && forall m :: i <= m < a ==> !SlashStartsAt(s, m)
    ensures r.None? ==> forall m :: i <= m < |s| ==> !SlashStartsAt(s, m)
    decreases |s| - i
  {
    if i == |s| then None
    else if SlashStartsAt(s, i) then Some((i, ChainEnd(s, i)))
    else SlashRunFrom(s, i + 1)
  }

  /** [int(x) for x in pieces] */
  function Values(ps: seq<string>): (r: seq<nat>)
    ensures |r| == |ps|
  {
    seq(|ps|, k requires 0 <= k < |ps| => DigitsValue(ps[k]))
  }

  /** The requirement list: the first slash run of the cleaned line, split at "/". */
  function Requirements(clean: string): (r: Option<seq<nat>>)
    ensures r.Some? <==> exists m :: 0 <= m < |clean| && SlashStartsAt(clean, m)
    ensures r.Some? ==> |r.value| >= 2
  {
    match SlashRunFrom(clean, 0)
    case None => None
    case Some((a, b)) =>
      ChainPieces(clean, a);
      Some(Values(Split(clean[a..b], '/')))
  }

  /** \((?:[^\d]*)(\d+)[^\d]*\) tried at an opening parenthesis at p. */
  function ParenAt(s: string, p: nat): (r: Option<nat>)
    requires p < |s| && s[p] == '('
    ensures r.Some? ==> exists q, e, k ::
      && p < q < e <= k <= |s| && AllIn(s, p + 1, q, NonDigits)
      && IsDigitRun(s[q..e]) && AllIn(s, e, k, NonDigits) && ')' in s[e..k]
      && r.value == DigitsValue(s[q..e])
  {
    var q := RunEnd(s, p + 1, NonDigits);
    if q == |s| then None
    else
      var e := RunEnd(s, q, Digits);
      var k := RunEnd(s, e, NonDigits);
      RunEndSpec(s, p + 1, NonDigits);
      RunEndSpec(s, q, Digits);
      RunEndSpec(s, e, NonDigits);
      assert forall m :: 0 <= m < e - q ==> s[q..e][m] == s[q + m];
      if ')' in s[e..k] then Some(DigitsValue(s[q..e])) else None
  }

  /** The parenthesised-total pattern matches at p. */
  predicate ParenMatchAt(s: string, p: nat) {
    p < |s| && s[p] == '(' && ParenAt(s, p).Some?
  }

  /** The first position at or after i where the parenthesised-total pattern matches. */
  function ParenPos(s: string, i: nat): (r: Option<nat>)
    requires i <= |s|
    ensures r.Some? ==> i <= r.value < |s| && ParenMatchAt(s, r.value)
    ensures r.Some? ==> forall m :: i <= m < r.value ==> !ParenMatchAt(s, m)
    ensures r.None? ==> forall m :: i <= m < |s| ==> !ParenMatchAt(s, m)
    decreases |s| - i
  {
    if i == |s| then None else if ParenMatchAt(s, i) then Some(i) else ParenPos(s, i + 1)
  }

  /**
   * re.search of the parenthesised-total pattern in s[i..]: the group captured at the
   * first "(" where the pattern matches.
   */
  function ParenTotalFrom(s: string, i: nat): (r: Option<nat>)
    requires i <= |s|
    ensures r.Some? ==> exists p ::
      && i <= p < |s| && s[p] == '(' && ParenAt(s, p) == r
      && (forall m :: i <= m < p && s[m] == '(' ==> ParenAt(s, m).None?)
    ensures r.None? ==> forall p :: i <= p < |s| && s[p] == '(' ==> ParenAt(s, p).None?
  {
    match ParenPos(s, i)
    case Some(p) =>
      assert forall m :: i <= m < p && s[m] == '(' ==> ParenAt(s, m).None? by {
        forall m | i <= m < p && s[m] == '(' ensures ParenAt(s, m).None? {
          assert !ParenMatchAt(s, m);
        }
      }
      ParenAt(s, p)
    case None =>
      assert forall p :: i <= p < |s| && s[p] == '(' ==> ParenAt(s, p).None? by {
        forall p | i <= p < |s| && s[p] == '(' ensures ParenAt(s, p).None? {
          assert !ParenMatchAt(s, p);
        }
      }
      None
  }

  function ParenTotal(s: string): Option<nat> {
    ParenTotalFrom(s, 0)
  }

  /**
   * extract_bp_from_two_lines: the requirements from line1 without key glyphs and plus
   * signs; the total from the first parenthesised number of line1, else of line2.
   */
  function ExtractBp(line1: string, line2: Option<string>): (r: Option<BpInfo>)
    ensures r.Some? <==> Requirements(CleanRequirementLine(line1)).Some?
  {
    match Requirements(CleanRequirementLine(line1))
    case None => None
    case Some(reqs) =>
      var total := if ParenTotal(line1).Some? then ParenTotal(line1)
        else ParenTotal(if line2.Some? then line2.value else "");
      Some(BpInfo(reqs, total))
  }

  /** re.search(r"\d+/\d+/", s) has a match starting at i. */
  predicate TwoSlashesAt(s: string, i: nat) {
    && i < |s| && IsDigit(s[i])
    && var e := RunEnd(s, i, Digits);
       && e + 1 < |s| && s[e] == '/' && IsDigit(s[e + 1])
       && var e2 := RunEnd(s, e + 1, Digits);
          e2 < |s| && s[e2] == '/'
  }

  /** The blueprint candidate test on a line with its key glyphs removed. */
  predicate IsCandidate(line: string) {
    var c := Remove(line, KEY);
    (exists i :: 0 <= i < |c| && TwoSlashesAt(c, i))
    || (SlashStartsAt(c, 0) && ChainEnd(c, 0) == |c|)
  }

  /**
   * Every candidate line holds a requirement run once cleaned, so extract_bp_from_two_lines
   * finds requirements on it: the candidate test and the extraction agree.
   */
  lemma {:induction false} CandidateRequirements(line: string)
    ensures IsCandidate(line) ==> Requirements(CleanRequirementLine(line)).Some?
  {
    var c := Remove(line, KEY);
    if exists i :: 0 <= i < |c| && TwoSlashesAt(c, i) {
      var i :| 0 <= i < |c| && TwoSlashesAt(c, i);
      assert SlashStartsAt(c, i);
      SlashStartKept(c, i);
    } else if SlashStartsAt(c, 0) {
      SlashStartKept(c, 0);
    }
  }

  /** Taking out plus signs keeps a place where digits, a slash and a digit start. */
  lemma {:induction false} SlashStartKept(c: string, i: nat)
    requires SlashStartsAt(c, i)
    ensures exists m :: 0 <= m < |Remove(c, '+')| && SlashStartsAt(Remove(c, '+'), m)
  {
    var e := RunEnd(c, i, Digits);
    RunEndSpec(c, i, Digits);
    assert e > i;
    var j := e - 1;
    assert IsDigit(c[j]);
    var w := c[j..j + 3];
    assert c == c[..j] + w + c[j + 3..];
    RemoveAppend(c[..j] + w, c[j + 3..], '+');
    RemoveAppend(c[..j], w, '+');
    assert '+' !in w by {
      assert w == [c[j], '/', c[j + 2]];
    }
    RemoveAbsent(w, '+');
    var r := Remove(c, '+');
    var m := |Remove(c[..j], '+')|;
    assert r == Remove(c[..j], '+') + w + Remove(c[j + 3..], '+');
    assert r[m] == c[j] && r[m + 1] == '/' && r[m + 2] == c[j + 2];
    assert RunEnd(r, m + 1, Digits) == m + 1;
    assert SlashStartsAt(r, m);
  }

  /** The pieces of a requirement run: at least two, each a digit run. */
  lemma {:induction false} ChainPieces(s: string, i: nat)
    requires i < |s| && IsDigit(s[i])
    ensures DigitPieces(Split(s[i..ChainEnd(s, i)], '/'))
    ensures SlashStartsAt(s, i) ==> |Split(s[i..ChainEnd(s, i)], '/')| >= 2
    decreases |s| - i
  {
    var e := RunEnd(s, i, Digits);
    var d := s[i..e];
    assert IsDigitRun(d) && '/' !in d by {
      RunEndSpec(s, i, Digits);
      assert forall m :: 0 <= m < |d| ==> d[m] == s[i + m];
      AllDigitsExclude(d, '/');
    }
    if e + 1 < |s| && s[e] == '/' && IsDigit(s[e + 1]) {
      var j := ChainEnd(s, e + 1);
      assert ChainEnd(s, i) == j;
      var rest := Split(s[e + 1..j], '/');
      assert DigitPieces(rest) && |rest| >= 1 by {
        ChainPieces(s, e + 1);
      }
      assert Split(s[i..j], '/') == [d] + rest by {
        assert s[i..j] == d + ['/'] + s[e + 1..j];
        SplitAppend(d, '/', s[e + 1..j]);
      }
      assert forall k :: 1 <= k < |rest| + 1 ==> ([d] + rest)[k] == rest[k - 1];
    } else {
      SplitNoSep(d, '/');
    }
  }

  /** Whatever extract_bp finds holds at least two requirements. */
  lemma {:induction false} ExtractBpRequirements(line1: string, line2: Option<string>)
    requires ExtractBp(line1, line2).Some?
    ensures |ExtractBp(line1, line2).value.requirements| >= 2
  {
    var c := CleanRequirementLine(line1);
    var (a, b) := SlashRunFrom(c, 0).value;
    ChainPieces(c, a);
  }

  /** "/".join(ds) */
  function Join(ds: seq<string>): string {
    if |ds| <= 1 then (if ds == [] then [] else ds[0]) else ds[0] + ['/'] + Join(ds[1..])
  }

  /** Splitting a join of slash-free pieces gives the pieces back. */
  lemma {:induction false} SplitJoin(ds: seq<string>)
    requires |ds| >= 1 && forall k :: 0 <= k < |ds| ==> '/' !in ds[k]
    ensures Split(Join(ds), '/') == ds
  {
    if |ds| == 1 {
      SplitNoSep(ds[0], '/');
    } else {
      SplitJoin(ds[1..]);
      SplitAppend(ds[0], '/', Join(ds[1..]));
      assert ds == [ds[0]] + ds[1..];
    }
  }

  /** A join of digit runs holds nothing but digits and slashes. */
  lemma {:induction false} JoinChars(ds: seq<string>, x: char)
    requires |ds| >= 1 && DigitPieces(ds)
    ensures x in Join(ds) ==> IsDigit(x) || x == '/'
  {
    if x in Join(ds) && !IsDigit(x) && x != '/' {
      assert IsDigitRun(ds[0]);
      AllDigitsExclude(ds[0], x);
      if |ds| > 1 {
        var tail := ds[1..];
        assert Join(ds) == ds[0] + ['/'] + Join(tail);
        assert x in Join(tail);
        assert DigitPieces(tail) by {
          forall k | 0 <= k < |tail| ensures IsDigitRun(tail[k]) {
            assert tail[k] == ds[k + 1];
          }
        }
        JoinChars(tail, x);
      }
      assert false;
    }
  }

  /** A run in a suffix ends where it ends in the suffix alone. */
  lemma {:induction false} RunEndShift(x: string, y: string, i: nat, k: CharClass)
    requires i <= |y|
    ensures RunEnd(x + y, |x| + i, k) == |x| + RunEnd(y, i, k)
  {
    var s, j := x + y, RunEnd(y, i, k);
    RunEndSpec(y, i, k);
    assert forall m :: |x| + i <= m < |x| + j ==> s[m] == y[m - |x|];
    RunEndUnique(s, |x| + i, |x| + j, k);
  }

  /** The requirement chain inside a suffix ends where it ends in the suffix alone. */
  lemma {:induction false} ChainEndShift(x: string, y: string, i: nat)
    requires i < |y| && IsDigit(y[i])
    ensures ChainEnd(x + y, |x| + i) == |x| + ChainEnd(y, i)
    decreases |y| - i
  {
    var s := x + y;
    assert s[|x| + i] == y[i];
    RunEndShift(x, y, i, Digits);
    var e := RunEnd(y, i, Digits);
    if e + 1 < |y| && y[e] == '/' && IsDigit(y[e + 1]) {
      assert s[|x| + e] == y[e] && s[|x| + e + 1] == y[e + 1];
      ChainEndShift(x, y, e + 1);
    } else if |x| + e + 1 < |s| {
      assert s[|x| + e] == y[e] && s[|x| + e + 1] == y[e + 1];
    }
  }

  /** What may follow a requirement run without extending it. */
  predicate EndsChain(post: string) {
    post == [] || (!IsDigit(post[0]) && post[0] != '/')
  }

  predicate DigitPieces(ds: seq<string>) {
    forall k :: 0 <= k < |ds| ==> IsDigitRun(ds[k])
  }

  /** The chain starting at a joined list of digit runs covers exactly the join. */
  lemma {:induction false} ChainOfJoin(ds: seq<string>, post: string)
    requires |ds| >= 1 && DigitPieces(ds) && EndsChain(post)
    ensures var t := Join(ds) + post;
      && 0 < |t| && IsDigit(t[0])
      && RunEnd(t, 0, Digits) == |ds[0]|
      && ChainEnd(t, 0) == |Join(ds)|
  {
    var d := ds[0];
    var t := Join(ds) + post;
    if |ds| == 1 {
      assert t == d + post;
      assert t[|d|..] == post;
      RunEndUnique(t, 0, |d|, Digits);
    } else {
      var rest := Join(ds[1..]) + post;
      ChainOfJoin(ds[1..], post);
      assert t == (d + ['/']) + rest;
      assert t[|d|] == '/';
      assert t[|d| + 1] == rest[0];
      RunEndUnique(t, 0, |d|, Digits);
      ChainEndShift(d + ['/'], rest, 0);
    }
  }

  /** Positions without a digit never start a requirement run. */
  lemma {:induction false} SlashRunSkips(s: string, i: nat, j: nat)
    requires i <= j <= |s| && forall m :: i <= m < j ==> !IsDigit(s[m])
    ensures SlashRunFrom(s, i) == SlashRunFrom(s, j)
    decreases j - i
  {
    if i < j {
      SlashRunSkips(s, i + 1, j);
    }
  }

  /** Whether a requirement run starts somewhere in a suffix does not depend on the prefix. */
  lemma {:induction false} SlashStartsShift(x: string, y: string, i: nat)
    requires i < |y|
    ensures SlashStartsAt(x + y, |x| + i) <==> SlashStartsAt(y, i)
  {
    var s := x + y;
    assert s[|x| + i] == y[i];
    RunEndShift(x, y, i, Digits);
    var e := RunEnd(y, i, Digits);
    if e + 1 < |y| {
      assert s[|x| + e] == y[e] && s[|x| + e + 1] == y[e + 1];
    }
  }

  /** Two or more joined digit runs start a requirement run covering the join. */
  lemma {:induction false} JoinStartsRun(ds: seq<string>, post: string)
    requires |ds| >= 2 && DigitPieces(ds) && EndsChain(post)
    ensures var t := Join(ds) + post; SlashStartsAt(t, 0) && ChainEnd(t, 0) == |Join(ds)|
  {
    var t := Join(ds) + post;
    ChainOfJoin(ds, post);
    var n := |ds[0]|;
    assert t == ds[0] + ['/'] + (Join(ds[1..]) + post);
    assert t[n] == '/' && t[n + 1] == ds[1][0];
  }

  /** A run found where the search starts is the result. */
  lemma {:induction false} SlashRunAt(s: string, i: nat)
    requires i < |s| && SlashStartsAt(s, i)
    ensures SlashRunFrom(s, i) == Some((i, ChainEnd(s, i)))
  {
  }

  /** After a digit-free prefix, the first requirement run is the one j starts, when it covers j. */
  lemma {:induction false} SlashRunAfter(pre: string, j: string, post: string)
    requires 0 < |j + post| && SlashStartsAt(j + post, 0) && ChainEnd(j + post, 0) == |j|
    requires forall m :: 0 <= m < |pre| ==> !IsDigit(pre[m])
    ensures SlashRunFrom(pre + j + post, 0) == Some((|pre|, |pre| + |j|))
  {
    var t := j + post;
    var s := pre + t;
    assert pre + j + post == s;
    SlashStartsShift(pre, t, 0);
    ChainEndShift(pre, t, 0);
    SlashRunAt(s, |pre|);
    assert forall m :: 0 <= m < |pre| ==> s[m] == pre[m];
    SlashRunSkips(s, 0, |pre|);
  }

  /** The first requirement run of such a line is exactly the joined pieces. */
  lemma {:induction false} SlashRunOfJoin(pre: string, ds: seq<string>, post: string)
    requires |ds| >= 2 && DigitPieces(ds) && EndsChain(post)
    requires forall m :: 0 <= m < |pre| ==> !IsDigit(pre[m])
    ensures SlashRunFrom(pre + Join(ds) + post, 0) == Some((|pre|, |pre| + |Join(ds)|))
  {
    JoinStartsRun(ds, post);
    SlashRunAfter(pre, Join(ds), post);
  }

  /**
   * The requirement round trip: after a digit-free prefix, two or more digit runs
   * joined by "/" are read back as their values.
   */
  lemma {:induction false} RequirementsOfJoin(pre: string, ds: seq<string>, post: string)
    requires |ds| >= 2 && DigitPieces(ds) && EndsChain(post)
    requires forall m :: 0 <= m < |pre| ==> !IsDigit(pre[m])
    ensures Requirements(pre + Join(ds) + post) == Some(Values(ds))
  {
    var s := pre + Join(ds) + post;
    SlashRunOfJoin(pre, ds, post);
    assert s[|pre|..|pre| + |Join(ds)|] == Join(ds);
    forall k | 0 <= k < |ds| ensures '/' !in ds[k] {
      AllDigitsExclude(ds[k], '/');
    }
    SplitJoin(ds);
  }

  /** A number wrapped in parentheses with only non-digits around it is the total. */
  lemma {:induction false} ParenWrapped(pre: string, d: string, post: string)
    requires IsDigitRun(d)
    requires forall m :: 0 <= m < |pre| ==> !IsDigit(pre[m])
    requires forall m :: 0 <= m < |post| ==> !IsDigit(post[m])
    ensures ParenTotal(['('] + pre + d + post + [')']) == Some(DigitsValue(d))
  {
    var s := ['('] + pre + d + post + [')'];
    var q, e := 1 + |pre|, 1 + |pre| + |d|;
    assert forall m :: 1 <= m < q ==> s[m] == pre[m - 1];
    assert forall m :: q <= m < e ==> s[m] == d[m - q];
    assert forall m :: e <= m < |s| - 1 ==> s[m] == post[m - e];
    RunEndUnique(s, 1, q, NonDigits);
    RunEndUnique(s, q, e, Digits);
    RunEndUnique(s, e, |s|, NonDigits);
    assert s[e..|s|][|s| - 1 - e] == ')';
    assert s[q..e] == d;
  }

  /** ParenWrapped for a literal line s that is "(" + pre + d + post + ")", with d reading as v. */
  lemma {:induction false} ParenLiteral(pre: string, d: string, post: string, s: string, v: nat)
    requires IsDigitRun(d) && DigitsValue(d) == v
    requires forall m :: 0 <= m < |pre| ==> !IsDigit(pre[m])
    requires forall m :: 0 <= m < |post| ==> !IsDigit(post[m])
    requires s == ['('] + pre + d + post + [')']
    ensures ParenTotal(s) == Some(v)
  {
    ParenWrapped(pre, d, post);
  }

  /** A line without "(" has no parenthesised total. */
  lemma {:induction false} NoParen(s: string)
    requires '(' !in s
    ensures ParenTotal(s).None?
  {
  }

  /** The values of the numerals the worked examples use. */
  lemma {:induction false} ExampleValues()
    ensures Values(["5", "8", "30"]) == [5, 8, 30]
    ensures DigitsValue("43") == 43
  {
    var ds := ["5", "8", "30"];
    forall k | 0 <= k < 3 ensures Values(ds)[k] == [5, 8, 30][k] {
      if k == 2 {
        TwoDigits(ds[k]);
      }
    }
    TwoDigits("43");
  }

  /** int() of a two-digit numeral. */
  lemma {:induction false} TwoDigits(s: string)
    requires |s| == 2
    ensures DigitsValue(s) == 10 * DigitValue(s[0]) + DigitValue(s[1])
  {
    assert DigitsValue(s[..1]) == DigitValue(s[0]) by {
      assert s[..1][..0] == [] && s[..1][0] == s[0];
    }
  }

  lemma {:induction false} KeyExampleValues()
    ensures Values(["40", "45", "60", "70", "85"]) == [40, 45, 60, 70, 85]
    ensures DigitsValue("300") == 300
  {
    var ds := ["40", "45", "60", "70", "85"];
    forall k | 0 <= k < 5 ensures Values(ds)[k] == [40, 45, 60, 70, 85][k] {
      TwoDigits(ds[k]);
    }
    assert DigitsValue("300") == 300 by {
      TwoDigits("30");
      assert "300"[..2] == "30";
    }
  }

  /** extract_bp assembled from its three parts. */
  lemma {:induction false} ExtractBpParts(line1: string, line2: string, reqs: seq<nat>, total: Option<nat>)
    requires Requirements(CleanRequirementLine(line1)) == Some(reqs)
    requires ParenTotal(line1).None? && ParenTotal(line2) == total
    ensures ExtractBp(line1, Some(line2)) == Some(BpInfo(reqs, total))
  {
  }

  /** A total on the first line wins, whatever the second line holds. */
  lemma {:induction false} ExtractBpLineOne(line1: string, line2: Option<string>, reqs: seq<nat>, t: nat)
    requires Requirements(CleanRequirementLine(line1)) == Some(reqs) && ParenTotal(line1) == Some(t)
    ensures ExtractBp(line1, line2) == Some(BpInfo(reqs, Some(t)))
  {
  }

  lemma {:induction false} BlueprintLineJoin()
    ensures Requirements("5/8/30") == Some(Values(["5", "8", "30"]))
  {
    var ds := ["5", "8", "30"];
    assert "" + Join(ds) + "" == "5/8/30";
    RequirementsOfJoin("", ds, "");
  }

  lemma {:induction false} BlueprintLineClean()
    ensures CleanRequirementLine("5/8/30") == "5/8/30"
  {
    RemoveAbsent("5/8/30", KEY);
    RemoveAbsent("5/8/30", '+');
  }

  lemma {:induction false} BlueprintLineRequirements()
    ensures Requirements(CleanRequirementLine("5/8/30")) == Some([5, 8, 30])
  {
    BlueprintLineJoin();
    BlueprintLineClean();
    ExampleValues();
  }

  lemma {:induction false} BlueprintLineNoTotal()
    ensures ParenTotal("5/8/30").None?
  {
    NoParen("5/8/30");
  }

  lemma {:induction false} BlueprintNextLineTotal()
    ensures ParenTotal("(43)") == Some(43)
  {
    TwoDigits("43");
    ParenLiteral("", "43", "", "(43)", 43);
  }

  /** The worked example "5/8/30" followed by "(43)". */
  lemma {:induction false} ExampleBlueprintLine()
    ensures ExtractBp("5/8/30", Some("(43)")) == Some(BpInfo([5, 8, 30], Some(43)))
  {
    BlueprintLineRequirements();
    BlueprintLineNoTotal();
    BlueprintNextLineTotal();
    ExtractBpParts("5/8/30", "(43)", [5, 8, 30], Some(43));
  }

  /** One step of a join: a piece, a slash, then the join of the rest. */
  lemma {:induction false} JoinStep(d: string, rest: seq<string>, tail: string, s: string)
    requires |rest| >= 1 && Join(rest) == tail && s == d + ['/'] + tail
    ensures Join([d] + rest) == s
  {
    assert ([d] + rest)[1..] == rest;
  }

  lemma {:induction false} KeyLineJoinText(ds: seq<string>)
    requires ds == ["40", "45", "60", "70", "85"]
    ensures Join(ds) == "40/45/60/70/85"
  {
    JoinStep("70", ["85"], "85", "70/85");
    assert ["70"] + ["85"] == ["70", "85"];
    JoinStep("60", ["70", "85"], "70/85", "60/70/85");
    assert ["60"] + ["70", "85"] == ["60", "70", "85"];
    JoinStep("45", ["60", "70", "85"], "60/70/85", "45/60/70/85");
    assert ["45"] + ["60", "70", "85"] == ["45", "60", "70", "85"];
    JoinStep("40", ["45", "60", "70", "85"], "45/60/70/85", "40/45/60/70/85");
    assert ["40"] + ["45", "60", "70", "85"] == ds;
  }

  lemma {:induction false} KeyLineJoin()
    ensures Requirements("/40/45/60/70/85") == Some(Values(["40", "45", "60", "70", "85"]))
  {
    var ds := ["40", "45", "60", "70", "85"];
    KeyLineJoinText(ds);
    assert "/" + Join(ds) + "" == "/40/45/60/70/85";
    RequirementsOfJoin("/", ds, "");
  }

  lemma {:induction false} KeyLineClean()
    ensures CleanRequirementLine([KEY] + "/40/45/60/70/85") == "/40/45/60/70/85"
  {
    var ds := ["40", "45", "60", "70", "85"];
    assert DigitPieces(ds) by {
      forall k | 0 <= k < |ds| ensures IsDigitRun(ds[k]) {
      }
    }
    var rest := "/" + Join(ds);
    assert rest == "/40/45/60/70/85";
    JoinChars(ds, KEY);
    JoinChars(ds, '+');
    assert KEY !in rest && '+' !in rest;
    RemoveAppend([KEY], rest, KEY);
    assert Remove([KEY], KEY) == [];
    RemoveAbsent(rest, KEY);
    assert Remove([KEY] + rest, KEY) == rest;
    RemoveAbsent(rest, '+');
    assert CleanRequirementLine([KEY] + rest) == rest;
  }

  lemma {:induction false} KeyLineRequirements()
    ensures Requirements(CleanRequirementLine([KEY] + "/40/45/60/70/85")) == Some([40, 45, 60, 70, 85])
  {
    KeyLineJoin();
    KeyLineClean();
    KeyExampleValues();
  }

  lemma {:induction false} KeyLineNoTotal()
    ensures ParenTotal([KEY] + "/40/45/60/70/85").None?
  {
    NoParen([KEY] + "/40/45/60/70/85");
  }

  lemma {:induction false} KeyNextLineTotal()
    ensures ParenTotal(['(', KEY] + " + 300)") == Some(300)
  {
    KeyExampleValues();
    ParenLiteral([KEY] + " + ", "300", "", ['(', KEY] + " + 300)", 300);
  }

  /** The worked key example "🔑/40/45/60/70/85" followed by "(🔑 + 300)". */
  lemma {:induction false} ExampleKeyLine()
    ensures ExtractBp([KEY] + "/40/45/60/70/85", Some(['(', KEY] + " + 300)"))
      == Some(BpInfo([40, 45, 60, 70, 85], Some(300)))
  {
    KeyLineRequirements();
    KeyLineNoTotal();
    KeyNextLineTotal();
    ExtractBpParts([KEY] + "/40/45/60/70/85", ['(', KEY] + " + 300)", [40, 45, 60, 70, 85], Some(300));
  }
}
