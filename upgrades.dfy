/**
 * The upgrade-cost ladder: one cumulative total per star block (a line of stars
 * followed, later, by a "= 68,200" line), the per-star differences of those totals,
 * and the overall "Total:" figure.
 */
module Upgrades {
  import opened Basics
  import opened Text
  import opened Numbers
  import opened Runs
  import opened Sums
  import opened Stats

  /** The index of the first line at or after i that starts with prefix (next(...) over the lines). */
  function FirstWithPrefix(lines: seq<string>, prefix: string, i: nat): (r: Option<nat>)
    requires i <= |lines|
    ensures r.Some? ==> i <= r.value < |lines| && StartsWith(lines[r.value], prefix)
    ensures r.Some? ==> forall m :: i <= m < r.value ==> !StartsWith(lines[m], prefix)
    ensures r.None? ==> forall m :: i <= m < |lines| ==> !StartsWith(lines[m], prefix)
    decreases |lines| - i
  {
    if i == |lines| then None
    else if StartsWith(lines[i], prefix) then Some(i)
    else FirstWithPrefix(lines, prefix, i + 1)
  }

  /** A line with the prefix and none before it is the one next(...) picks. */
  lemma {:induction false} FirstWithPrefixAt(lines: seq<string>, prefix: string, k: nat)
    requires k < |lines| && StartsWith(lines[k], prefix)
    requires forall m :: 0 <= m < k ==> !StartsWith(lines[m], prefix)
    ensures FirstWithPrefix(lines, prefix, 0) == Some(k)
  {
    assert FirstWithPrefix(lines, prefix, 0) == Some(k);
  }

  /** lit\s*([\d,]+) matches at p: lit, optional whitespace, then a digit or comma. */
  predicate LabelledAt(s: string, lit: string, p: nat) {
    && HasAt(s, p, lit)
    && var q := RunEnd(s, p + |lit|, Spaces);
       q < |s| && InClass(s[q], DigitsCommas)
  }

  /** The first position at or after i where lit\s*([\d,]+) matches. */
  function FirstLabelled(s: string, lit: string, i: nat): (r: Option<nat>)
    requires i <= |s|
    ensures r.Some? ==> i <= r.value && LabelledAt(s, lit, r.value)
    ensures r.Some? ==> forall m :: i <= m < r.value ==> !LabelledAt(s, lit, m)
    ensures r.None? ==> forall m :: i <= m < |s| ==> !LabelledAt(s, lit, m)
    decreases |s| - i
  {
    if i == |s| then None
    else if LabelledAt(s, lit, i) then Some(i)
    else FirstLabelled(s, lit, i + 1)
  }

  /** re.search(lit + r"\s*([\d,]+)", s).group(1), when there is a match. */
  function LabelledNumber(s: string, lit: string): Option<string> {
    match FirstLabelled(s, lit, 0)
    case Some(p) =>
      var q := RunEnd(s, p + |lit|, Spaces);
      Some(s[q..RunEnd(s, q, DigitsCommas)])
    case None => None
  }

  /** The group is a non-empty run of digits and commas, so it holds no minus sign. */
  lemma {:induction false} LabelledNumberShape(s: string, lit: string)
    requires LabelledNumber(s, lit).Some?
    ensures var g := LabelledNumber(s, lit).value;
      g != [] && (forall k :: 0 <= k < |g| ==> IsDigit(g[k]) || g[k] == ',') && '-' !in g
  {
    var p := FirstLabelled(s, lit, 0).value;
    var q := RunEnd(s, p + |lit|, Spaces);
    RunEndSpec(s, q, DigitsCommas);
    var g := s[q..RunEnd(s, q, DigitsCommas)];
    assert forall k :: 0 <= k < |g| ==> g[k] == s[q + k];
  }

  /** A parsed group truncates to a non-negative integer. */
  lemma {:induction false} LabelledValueNonNegative(s: string, lit: string)
    requires LabelledNumber(s, lit).Some? && ParseNumber(LabelledNumber(s, lit).value).Ok?
    ensures Truncate(ParseNumber(LabelledNumber(s, lit).value).value) >= 0
  {
    LabelledNumberShape(s, lit);
    ParseNonNegative(LabelledNumber(s, lit).value);
  }

  /** What one line means to the ladder loop. */
  datatype Step =
    | StarStep                                       // a line of stars: opens a block
    | CloseStep(total: Option<Result<int, Error>>)   // a line starting with "=": closes an open block
    | OtherStep

  /**
   * The step of one line: a line of stars; a line starting with "=", carrying the truncated
   * number after "=" when there is one, or the error parse_number raises on it; any other line.
   */
  function StepOf(l: string): (r: Step)
    ensures r.StarStep? <==> AllStars(l)
    ensures r.CloseStep? <==> StartsWith(l, "=")
    ensures r.CloseStep? && r.total.Some? && r.total.value.Ok? ==> r.total.value.value >= 0
    ensures r.CloseStep? && r.total.Some? && r.total.value.Err? ==> IsNumberError(r.total.value.error)
  {
    if AllStars(l) then
      assert !StartsWith(l, "=") by {
        if StartsWith(l, "=") {
          EqualsLineNotStars(l);
        }
      }
      StarStep
    else if StartsWith(l, "=") then
      match LabelledNumber(l, "=")
      case None => CloseStep(None)
      case Some(g) =>
        match ParseNumber(g)
        case Err(e) => CloseStep(Some(Err(e)))
        case Ok(v) =>
          LabelledValueNonNegative(l, "=");
          CloseStep(Some(Ok(Truncate(v))))
    else OtherStep
  }

  /** A line that starts with "=" is not a line of stars. */
  lemma {:induction false} EqualsLineNotStars(l: string)
    requires StartsWith(l, "=")
    ensures !AllStars(l)
  {
    assert l[0] == l[..1][0] == '=';
  }

  /** An "=" line whose number parses to v is a closing step carrying Truncate(v). */
  lemma {:induction false} StepOfNumber(l: string, v: Num)
    requires StartsWith(l, "=")
    requires LabelledNumber(l, "=").Some? && ParseNumber(LabelledNumber(l, "=").value) == Ok(v)
    ensures StepOf(l) == CloseStep(Some(Ok(Truncate(v))))
  {
    EqualsLineNotStars(l);
  }

  /** An "=" line without a number is a closing step without a total. */
  lemma {:induction false} StepOfEmpty(l: string)
    requires StartsWith(l, "=") && LabelledNumber(l, "=").None?
    ensures StepOf(l) == CloseStep(None)
  {
    EqualsLineNotStars(l);
  }

  /** An "=" line whose number does not parse is a closing step carrying the error. */
  lemma {:induction false} StepOfError(l: string)
    requires StartsWith(l, "=")
    requires LabelledNumber(l, "=").Some? && ParseNumber(LabelledNumber(l, "=").value).Err?
    ensures StepOf(l) == CloseStep(Some(Err(ParseNumber(LabelledNumber(l, "=").value).error)))
  {
    EqualsLineNotStars(l);
  }

  /** The steps of the page's lines, one per line. */
  function Steps(lines: seq<string>): (r: seq<Step>)
    ensures |r| == |lines|
    ensures forall k :: 0 <= k < |lines| ==> r[k] == StepOf(lines[k])
  {
    seq(|lines|, k requires 0 <= k < |lines| => StepOf(lines[k]))
  }

  /** Every total a step carries is non-negative, and every error it carries is a number error. */
  predicate StepsFit(steps: seq<Step>) {
    forall k :: 0 <= k < |steps| && steps[k].CloseStep? && steps[k].total.Some? ==>
      (steps[k].total.value.Ok? ==> steps[k].total.value.value >= 0)
      && (steps[k].total.value.Err? ==> IsNumberError(steps[k].total.value.error))
  }

  /**
   * The ladder loop from step i, inside a star block or not, with the totals gathered
   * so far: a line of stars opens a block; inside a block, a line starting with "="
   * closes it, adding the truncated number after "=" when there is one.
   */
  function Ladder(steps: seq<Step>, i: nat, inBlock: bool, acc: seq<int>): (r: Result<seq<int>, Error>)
    requires i <= |steps|
    decreases |steps| - i
  {
    if i == |steps| then Ok(acc)
    else
      match steps[i]
      case StarStep => Ladder(steps, i + 1, true, acc)
      case CloseStep(t) =>
        if !inBlock || t.None? then Ladder(steps, i + 1, false, acc)
        else if t.value.Err? then Err(t.value.error)
        else Ladder(steps, i + 1, false, acc + [t.value.value])
      case OtherStep => Ladder(steps, i + 1, inBlock, acc)
  }

  /** upgrade_cumulative, before the per-star differences: the ladder over the whole page. */
  function UpgradeCumulative(lines: seq<string>): Result<seq<int>, Error> {
    Ladder(Steps(lines), 0, false, [])
  }

  /** The ladder fails only with an error a step carries, so only with a number error. */
  lemma {:induction false} LadderErrors(steps: seq<Step>, i: nat, inBlock: bool, acc: seq<int>)
    requires i <= |steps| && StepsFit(steps)
    ensures Ladder(steps, i, inBlock, acc).Err? ==> IsNumberError(Ladder(steps, i, inBlock, acc).error)
    decreases |steps| - i
  {
    if i < |steps| {
      match steps[i]
      case StarStep => LadderErrors(steps, i + 1, true, acc);
      case CloseStep(t) =>
        if !inBlock || t.None? {
          LadderErrors(steps, i + 1, false, acc);
        } else if t.value.Ok? {
          LadderErrors(steps, i + 1, false, acc + [t.value.value]);
        }
      case OtherStep => LadderErrors(steps, i + 1, inBlock, acc);
    }
  }

  /** Steps that are neither star lines nor, inside a block, "=" lines leave the ladder as it is. */
  lemma {:induction false} LadderQuiet(steps: seq<Step>, i: nat, k: nat, inBlock: bool, acc: seq<int>)
    requires i <= k <= |steps|
    requires forall m :: i <= m < k ==> !steps[m].StarStep? && !(inBlock && steps[m].CloseStep?)
    ensures Ladder(steps, i, inBlock, acc) == Ladder(steps, k, inBlock, acc)
    decreases k - i
  {
    if i < k {
      LadderQuiet(steps, i + 1, k, inBlock, acc);
    }
  }

  /** An "=" line outside a star block adds nothing. */
  lemma {:induction false} LadderOutsideBlock(steps: seq<Step>, j: nat, acc: seq<int>)
    requires j < |steps| && steps[j].CloseStep?
    ensures Ladder(steps, j, false, acc) == Ladder(steps, j + 1, false, acc)
  {
  }

  /** Inside a block, lines without "=" keep the block open, star lines included. */
  lemma {:induction false} LadderInBlock(steps: seq<Step>, i: nat, k: nat, acc: seq<int>)
    requires i <= k <= |steps|
    requires forall m :: i <= m < k ==> !steps[m].CloseStep?
    ensures Ladder(steps, i, true, acc) == Ladder(steps, k, true, acc)
    decreases k - i
  {
    if i < k {
      LadderInBlock(steps, i + 1, k, acc);
    }
  }

  /** An "=" line without a number closes the block and adds nothing. */
  lemma {:induction false} LadderCloseEmpty(steps: seq<Step>, j: nat, acc: seq<int>)
    requires j < |steps| && steps[j] == CloseStep(None)
    ensures Ladder(steps, j, true, acc) == Ladder(steps, j + 1, false, acc)
  {
  }

  /** An "=" line whose number parses closes the block and adds the truncated number. */
  lemma {:induction false} LadderCloseNumber(steps: seq<Step>, j: nat, acc: seq<int>, n: int)
    requires j < |steps| && steps[j] == CloseStep(Some(Ok(n)))
    ensures Ladder(steps, j, true, acc) == Ladder(steps, j + 1, false, acc + [n])
  {
  }

  /** An "=" line whose number does not parse fails the ladder with that error. */
  lemma {:induction false} LadderCloseError(steps: seq<Step>, j: nat, acc: seq<int>, e: Error)
    requires j < |steps| && steps[j] == CloseStep(Some(Err(e)))
    ensures Ladder(steps, j, true, acc) == Err(e)
  {
  }

  /**
   * One star block: a star line at s, lines without "=" up to c, then an "=" line at c
   * carrying the total n; the block adds exactly n and the walk resumes after c outside
   * any block.
   */
  lemma {:induction false} LadderBlock(steps: seq<Step>, s: nat, c: nat, inBlock: bool, acc: seq<int>, n: int)
    requires s < c < |steps| && steps[s].StarStep?
    requires forall m :: s < m < c ==> !steps[m].CloseStep?
    requires steps[c] == CloseStep(Some(Ok(n)))
    ensures Ladder(steps, s, inBlock, acc) == Ladder(steps, c + 1, false, acc + [n])
  {
    LadderInBlock(steps, s + 1, c, acc);
    LadderCloseNumber(steps, c, acc, n);
  }

  /**
   * The same block stated on the page's lines: a line of stars at s, no line starting
   * with "=" before c, and at c an "=" line whose number parses to v add Truncate(v).
   */
  lemma {:induction false} UpgradeBlock(lines: seq<string>, s: nat, c: nat, inBlock: bool, acc: seq<int>, v: Num)
    requires s < c < |lines| && AllStars(lines[s])
    requires forall m :: s < m < c ==> !StartsWith(lines[m], "=")
    requires StartsWith(lines[c], "=")
    requires LabelledNumber(lines[c], "=").Some? && ParseNumber(LabelledNumber(lines[c], "=").value) == Ok(v)
    ensures Ladder(Steps(lines), s, inBlock, acc) == Ladder(Steps(lines), c + 1, false, acc + [Truncate(v)])
  {
    var steps := Steps(lines);
    StepOfNumber(lines[c], v);
    LadderBlock(steps, s, c, inBlock, acc, Truncate(v));
  }

  /** With no "=" line ahead nothing more is added: a block that never closes adds no total. */
  lemma {:induction false} LadderNoClose(steps: seq<Step>, i: nat, inBlock: bool, acc: seq<int>)
    requires i <= |steps|
    requires forall m :: i <= m < |steps| ==> !steps[m].CloseStep?
    ensures Ladder(steps, i, inBlock, acc) == Ok(acc)
    decreases |steps| - i
  {
    if i < |steps| {
      if steps[i].StarStep? {
        LadderNoClose(steps, i + 1, true, acc);
      } else {
        LadderNoClose(steps, i + 1, inBlock, acc);
      }
    }
  }

  /** The upgrade_cumulative loop of parse_mei_page. */
  method UpgradeTotals(lines: seq<string>) returns (r: Result<seq<int>, Error>)
    ensures r == UpgradeCumulative(lines)
  {
    ghost var steps := Steps(lines);
    var totals: seq<int> := [];
    var inBlock := false;
    for i := 0 to |lines|
      invariant Ladder(steps, i, inBlock, totals) == Ladder(steps, 0, false, [])
    {
      var l := lines[i];
      assert steps[i] == StepOf(l);
      if AllStars(l) {
        inBlock := true;
        continue;
      }
      if inBlock {
        if StartsWith(l, "=") {
          var m := LabelledNumber(l, "=");
          if m.Some? {
            var total := ParseNumber(m.value);
            if total.Err? {
              StepOfError(l);
              LadderCloseError(steps, i, totals, total.error);
              return Err(total.error);
            }
            StepOfNumber(l, total.value);
            LadderCloseNumber(steps, i, totals, Truncate(total.value));
            totals := totals + [Truncate(total.value)];
          } else {
            StepOfEmpty(l);
            LadderCloseEmpty(steps, i, totals);
          }
          inBlock := false;
        }
      }
    }
    return Ok(totals);
  }

  /** How many steps at or after i are lines of stars. */
  function StarLines(steps: seq<Step>, i: nat): nat
    requires i <= |steps|
    decreases |steps| - i
  {
    if i == |steps| then 0 else (if steps[i].StarStep? then 1 else 0) + StarLines(steps, i + 1)
  }

  /**
   * The loop only appends: the totals added number at most the star lines still ahead,
   * plus one for a block already open.
   */
  lemma {:induction false} LadderCount(steps: seq<Step>, i: nat, inBlock: bool, acc: seq<int>)
    requires i <= |steps|
    ensures var r := Ladder(steps, i, inBlock, acc);
      r.Ok? ==>
        && |acc| <= |r.value| <= |acc| + (if inBlock then 1 else 0) + StarLines(steps, i)
        && r.value[..|acc|] == acc
    decreases |steps| - i
  {
    if i < |steps| {
      match steps[i]
      case StarStep => LadderCount(steps, i + 1, true, acc);
      case CloseStep(t) =>
        if !inBlock || t.None? {
          LadderCount(steps, i + 1, false, acc);
        } else if t.value.Ok? {
          var acc' := acc + [t.value.value];
          LadderCount(steps, i + 1, false, acc');
          var r := Ladder(steps, i + 1, false, acc');
          if r.Ok? {
            assert r.value[..|acc|] == r.value[..|acc'|][..|acc|];
          }
        }
      case OtherStep => LadderCount(steps, i + 1, inBlock, acc);
    }
  }

  /** Every total the loop adds is non-negative. */
  lemma {:induction false} LadderNonNegative(steps: seq<Step>, i: nat, inBlock: bool, acc: seq<int>)
    requires i <= |steps| && StepsFit(steps)
    requires forall k :: 0 <= k < |acc| ==> acc[k] >= 0
    ensures var r := Ladder(steps, i, inBlock, acc);
      r.Ok? ==> forall k :: 0 <= k < |r.value| ==> r.value[k] >= 0
    decreases |steps| - i
  {
    if i < |steps| {
      match steps[i]
      case StarStep => LadderNonNegative(steps, i + 1, true, acc);
      case CloseStep(t) =>
        if !inBlock || t.None? {
          LadderNonNegative(steps, i + 1, false, acc);
        } else if t.value.Ok? {
          var acc' := acc + [t.value.value];
          assert forall k :: 0 <= k < |acc'| ==> acc'[k] >= 0;
          LadderNonNegative(steps, i + 1, false, acc');
        }
      case OtherStep => LadderNonNegative(steps, i + 1, inBlock, acc);
    }
  }

  /** upgrade_cumulative: at most one total per star line, none negative, and only number errors. */
  lemma {:induction false} UpgradeTotalsBounds(lines: seq<string>)
    ensures var r := UpgradeCumulative(lines);
      && (r.Ok? ==> |r.value| <= StarLines(Steps(lines), 0))
      && (r.Ok? ==> forall k :: 0 <= k < |r.value| ==> r.value[k] >= 0)
      && (r.Err? ==> IsNumberError(r.error))
  {
    var steps := Steps(lines);
    assert StepsFit(steps);
    LadderCount(steps, 0, false, []);
    LadderNonNegative(steps, 0, false, []);
    LadderErrors(steps, 0, false, []);
  }

  /**
   * upgrade_all: the truncated number after "Total:" on the first line starting with
   * "Total:", absent when there is no such line or no number follows; a number that
   * does not parse fails the page.
   */
  function UpgradeAll(lines: seq<string>): (r: Result<Option<int>, Error>)
    ensures r.Ok? && r.value.Some? ==> r.value.value >= 0
    ensures FirstWithPrefix(lines, "Total:", 0).None? ==> r == Ok(None)
    ensures r.Err? ==> IsNumberError(r.error)
  {
    match FirstWithPrefix(lines, "Total:", 0)
    case None => Ok(None)
    case Some(k) =>
      match LabelledNumber(lines[k], "Total:")
      case None => Ok(None)
      case Some(g) =>
        match ParseNumber(g)
        case Err(e) => Err(e)
        case Ok(v) =>
          LabelledValueNonNegative(lines[k], "Total:");
          Ok(Some(Truncate(v)))
  }

  /**
   * The first "Total:" line decides upgrade_all: no number after "Total:" gives none; a
   * number that parses gives its truncation; one that does not parse fails with its error.
   */
  lemma {:induction false} UpgradeAllFirst(lines: seq<string>, k: nat)
    requires k < |lines| && StartsWith(lines[k], "Total:")
    requires forall m :: 0 <= m < k ==> !StartsWith(lines[m], "Total:")
    ensures LabelledNumber(lines[k], "Total:").None? ==> UpgradeAll(lines) == Ok(None)
    ensures var g := LabelledNumber(lines[k], "Total:");
      g.Some? && ParseNumber(g.value).Ok? ==> UpgradeAll(lines) == Ok(Some(Truncate(ParseNumber(g.value).value)))
    ensures var g := LabelledNumber(lines[k], "Total:");
      g.Some? && ParseNumber(g.value).Err? ==> UpgradeAll(lines) == Err(ParseNumber(g.value).error)
  {
    FirstWithPrefixAt(lines, "Total:", k);
  }

  /** upgrade_per_star: the first total, then each total minus the one before. */
  method PerStarDeltas(cum: seq<int>) returns (d: seq<int>)
    ensures d == Deltas(cum)
  {
    d := [];
    for idx := 0 to |cum|
      invariant d == Deltas(cum)[..idx]
    {
      if idx == 0 {
        d := d + [cum[idx]];
      } else {
        d := d + [cum[idx] - cum[idx - 1]];
      }
    }
  }
}
