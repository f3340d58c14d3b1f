/**
 * The regular-expression pieces the parser uses, as explicit character classes and
 * maximal runs. A greedy `[..]+` or `\s*` that the rest of its pattern cannot make
 * shorter always takes the longest run, which is what RunEnd computes.
 */
module Runs {
  import opened Text
  import opened Numbers

  /** \d, [\d.,], [\d,], \s and [^\d]. */
  datatype CharClass = Digits | NumberChars | DigitsCommas | Spaces | NonDigits

  predicate InClass(c: char, k: CharClass) {
    match k
    case Digits => IsDigit(c)
    case NumberChars => IsDigit(c) || c == '.' || c == ','
    case DigitsCommas => IsDigit(c) || c == ','
    case Spaces => IsSpace(c)
    case NonDigits => !IsDigit(c)
  }

  /** All characters of s[i..j] are in class k. */
  predicate AllIn(s: string, i: nat, j: nat, k: CharClass)
    requires i <= j <= |s|
  {
    forall m :: i <= m < j ==> InClass(s[m], k)
  }

  /** The end of the longest run of class-k characters starting at i. */
  function RunEnd(s: string, i: nat, k: CharClass): (j: nat)
    requires i <= |s|
    ensures i <= j <= |s|
    decreases |s| - i
  {
    if i < |s| && InClass(s[i], k) then RunEnd(s, i + 1, k) else i
  }

  /** The run is made of class-k characters and cannot be extended. */
  lemma {:induction false} RunEndSpec(s: string, i: nat, k: CharClass)
    requires i <= |s|
    ensures AllIn(s, i, RunEnd(s, i, k), k)
    ensures RunEnd(s, i, k) == |s| || !InClass(s[RunEnd(s, i, k)], k)
    decreases |s| - i
  {
    if i < |s| && InClass(s[i], k) {
      RunEndSpec(s, i + 1, k);
    }
  }

  /** A run that is already maximal ends where RunEnd says. */
  lemma {:induction false} RunEndUnique(s: string, i: nat, j: nat, k: CharClass)
    requires i <= j <= |s| && AllIn(s, i, j, k) && (j == |s| || !InClass(s[j], k))
    ensures RunEnd(s, i, k) == j
    decreases j - i
  {
    if i < j {
      RunEndUnique(s, i + 1, j, k);
    }
  }

  /** Every position inside a run ends that same run. */
  lemma {:induction false} RunEndInside(s: string, i: nat, m: nat, k: CharClass)
    requires i <= |s| && i <= m <= RunEnd(s, i, k)
    ensures RunEnd(s, m, k) == RunEnd(s, i, k)
  {
    RunEndSpec(s, i, k);
    RunEndUnique(s, m, RunEnd(s, i, k), k);
  }

  /** The first position at or after i holding c, or |s| when there is none. */
  function IndexOf(s: string, i: nat, c: char): (j: nat)
    requires i <= |s|
    ensures i <= j <= |s|
    ensures j < |s| ==> s[j] == c
    ensures forall m :: i <= m < j ==> s[m] != c
    decreases |s| - i
  {
    if i == |s| || s[i] == c then i else IndexOf(s, i + 1, c)
  }

  /** s holds the text t starting at position i. */
  predicate HasAt(s: string, i: nat, t: string) {
    i + |t| <= |s| && s[i..i + |t|] == t
  }
}
