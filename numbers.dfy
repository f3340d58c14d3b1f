/**
 * parse_number: the locale-ambiguous number reader, with its fixed rule order.
 * Values are kept exact: an integer, or a decimal as mantissa / 10^scale
 * (the source turns decimals into floats; rounding is not modelled).
 */
module Numbers {
  import opened Basics
  import opened Text

  /** Int(i) for the integer readings, Dec(m, k) for the decimal m / 10^k. */
  datatype Num = Int(i: int) | Dec(mantissa: nat, scale: nat)

  predicate IsDigit(c: char) { '0' <= c <= '9' }

  predicate AllDigits(s: string) { forall i :: 0 <= i < |s| ==> IsDigit(s[i]) }

  /** What \d+ matches. */
  predicate IsDigitRun(s: string) { |s| > 0 && AllDigits(s) }

  function DigitValue(c: char): nat {
    if IsDigit(c) then (c as int) - ('0' as int) else 0
  }

  /** int(s) for a string of ASCII digits. */
  function DigitsValue(s: string): nat {
    if s == [] then 0 else 10 * DigitsValue(s[..|s| - 1]) + DigitValue(s[|s| - 1])
  }

  function Pow10(k: nat): (r: nat)
    ensures r >= 1
  {
    if k == 0 then 1 else 10 * Pow10(k - 1)
  }

  /** Python's int() applied to a parsed number: a decimal is truncated toward zero. */
  function Truncate(n: Num): (r: int)
    ensures n.Dec? ==> 0 <= r <= n.mantissa
  {
    match n
    case Int(i) => i
    case Dec(m, k) => DivBounds(m, Pow10(k)); m / Pow10(k)
  }

  lemma {:induction false} DivBounds(m: nat, p: nat)
    requires p >= 1
    ensures 0 <= m / p <= m
  {
  }

  /** Reading one more digit: the value so far shifts one place. */
  lemma {:induction false} DigitsValueSnoc(s: string, c: char)
    ensures DigitsValue(s + [c]) == 10 * DigitsValue(s) + DigitValue(c)
  {
    assert (s + [c])[..|s|] == s;
  }

  lemma {:induction false} ShiftArith(x: int, p: int, y: int, c: int)
    ensures 10 * (x * p + y) + c == x * (10 * p) + (10 * y + c)
  {
  }

  /** The value of two digit strings written one after the other. */
  lemma {:induction false} DigitsValueAppend(a: string, b: string)
    ensures DigitsValue(a + b) == DigitsValue(a) * Pow10(|b|) + DigitsValue(b)
    decreases |b|
  {
    if b == [] {
      assert a + b == a;
    } else {
      var b', c := b[..|b| - 1], b[|b| - 1];
      assert b == b' + [c];
      assert a + b == (a + b') + [c];
      DigitsValueSnoc(a + b', c);
      DigitsValueSnoc(b', c);
      DigitsValueAppend(a, b');
      ShiftArith(DigitsValue(a), Pow10(|b'|), DigitsValue(b'), DigitValue(c));
    }
  }

  /** str(n): the decimal numeral of n. */
  function DigitsOf(n: nat): (r: string)
    ensures IsDigitRun(r) && DigitsValue(r) == n
  {
    if n < 10 then [('0' as int + n) as char]
    else
      var p := DigitsOf(n / 10);
      var r := p + [('0' as int + n % 10) as char];
      assert r[..|r| - 1] == p;
      r
  }

  /** The digits of d with sep between groups of three, counted from the right. */
  function Grouped(d: string, sep: char): string
    decreases |d|
  {
    if |d| <= 3 then d else Grouped(d[..|d| - 3], sep) + [sep] + d[|d| - 3..]
  }

  /** re.fullmatch(r"\d{1,3}(\.\d{3})+", s) */
  predicate IsThousandDots(s: string) {
    var g := Split(s, '.');
    && |g| >= 2
    && IsDigitRun(g[0]) && |g[0]| <= 3
    && forall k :: 1 <= k < |g| ==> IsDigitRun(g[k]) && |g[k]| == 3
  }

  /** Two pieces, both digit runs: what r"\d+,\d+" and r"\d+\.\d+" accept after a split. */
  predicate IsDigitPair(g: seq<string>) {
    |g| == 2 && IsDigitRun(g[0]) && IsDigitRun(g[1])
  }

  /** Python's integer literal body: digits, single underscores only between digits. */
  predicate IsUnderscoredDigits(u: string) {
    && |u| > 0 && IsDigit(u[0]) && IsDigit(u[|u| - 1])
    && (forall i :: 0 <= i < |u| ==> IsDigit(u[i]) || u[i] == '_')
    && NoDoubleUnderscore(u)
  }

  predicate NoDoubleUnderscore(u: string) {
    |u| < 2 || (!(u[0] == '_' && u[1] == '_') && NoDoubleUnderscore(u[1..]))
  }

  lemma {:induction false} NoUnderscoreAtAll(u: string)
    requires '_' !in u
    ensures NoDoubleUnderscore(u)
  {
    if |u| >= 2 {
      assert u[1..][0] == u[1];
      NoUnderscoreAtAll(u[1..]);
    }
  }

  /** Python's int(t) for base 10: surrounding whitespace, then a literal. */
  function PyInt(t: string): Option<int> {
    IntLiteral(Strip(t))
  }

  /** A base-10 integer literal without surrounding whitespace: an optional sign, underscores. */
  function IntLiteral(u: string): (r: Option<int>)
    ensures r.Some? ==> |u| > 0 && IsDigit(u[|u| - 1])
    ensures r.Some? && r.value < 0 ==> u[0] == '-'
  {
    if |u| > 0 && (u[0] == '+' || u[0] == '-') then
      if IsUnderscoredDigits(u[1..]) then
        var v: int := DigitsValue(Remove(u[1..], '_'));
        Some(if u[0] == '-' then -v else v)
      else None
    else if IsUnderscoredDigits(u) then Some(DigitsValue(Remove(u, '_')))
    else None
  }

  /** Rules 3 and 4 of parse_number and its final raise. */
  function PlainNumber(s: string): Result<Num, Error> {
    var g := Split(s, '.');
    if IsDigitPair(g) then Ok(Dec(DigitsValue(g[0] + g[1]), |g[1]|))
    else if IsDigitRun(s) then Ok(Int(DigitsValue(s)))
    else Err(NotANumber(s))
  }

  /** Rule 2 of parse_number, for a text with commas and no dot. */
  function CommaNumber(s: string): Result<Num, Error> {
    var g := Split(s, ',');
    if IsDigitPair(g) then
      if |g[1]| == 3 then Ok(Int(DigitsValue(g[0] + g[1])))
      else Ok(Dec(DigitsValue(g[0] + g[1]), |g[1]|))
    else if forall k :: 1 <= k < |g| ==> |g[k]| <= 3 then
      // "".join(parts) is s with its commas taken out
      match PyInt(Remove(s, ','))
      case Some(n) => Ok(Int(n))
      case None => Err(BadIntLiteral(Remove(s, ',')))
    else PlainNumber(s)
  }

  /** parse_number on an already stripped text; a decimal has at least one fraction digit. */
  function ParseStripped(s: string): (r: Result<Num, Error>)
    ensures r.Ok? && r.value.Dec? ==> r.value.scale >= 1
    ensures r.Err? ==> IsNumberError(r.error)
  {
    if IsThousandDots(s) then Ok(Int(DigitsValue(Remove(s, '.'))))
    else if ',' in s && '.' !in s then CommaNumber(s)
    else PlainNumber(s)
  }

  /**
   * parse_number: the first rule that matches wins.
   *   1. thousand dots "42.486.000" -> 42486000 (so "4.500" -> 4500);
   *   2. commas without dots: "68,200" -> 68200, "42,2" -> 42.2, and with several
   *      commas all later groups of at most three characters are joined and given to int();
   *   3. "123.45" -> 123.45;   4. "307" -> 307;   otherwise a ValueError.
   */
  function ParseNumber(raw: string): (r: Result<Num, Error>)
    ensures r.Err? ==> IsNumberError(r.error)
  {
    ParseStripped(Strip(raw))
  }

  lemma {:induction false} AllDigitsExclude(s: string, c: char)
    requires AllDigits(s) && !IsDigit(c)
    ensures c !in s
  {
  }

  /** A digit run is a valid integer literal body, with no underscore to remove. */
  lemma {:induction false} DigitRunUnderscored(d: string)
    requires IsDigitRun(d)
    ensures IsUnderscoredDigits(d) && Remove(d, '_') == d
  {
    AllDigitsExclude(d, '_');
    NoUnderscoreAtAll(d);
    RemoveAbsent(d, '_');
  }

  /** int() reads a plain digit run as its value. */
  lemma {:induction false} PyIntDigitRun(d: string)
    requires IsDigitRun(d)
    ensures PyInt(d) == Some(DigitsValue(d))
  {
    StripUnspaced(d);
    DigitRunUnderscored(d);
    assert IsDigit(d[0]);
  }

  /** parse_number on a text without surrounding whitespace is the stripped reading. */
  lemma {:induction false} ParseUnspaced(s: string)
    requires s == [] || (!IsSpace(s[0]) && !IsSpace(s[|s| - 1]))
    ensures ParseNumber(s) == ParseStripped(s)
  {
    StripUnspaced(s);
  }

  lemma {:induction false} StrippedDigitRun(d: string)
    requires IsDigitRun(d)
    ensures ParseStripped(d) == Ok(Int(DigitsValue(d)))
  {
    AllDigitsExclude(d, '.');
    AllDigitsExclude(d, ',');
    SplitNoSep(d, '.');
  }

  /** Rule 4: a plain digit run is read as the integer it spells. */
  lemma {:induction false} ParseDigitRun(d: string)
    requires IsDigitRun(d)
    ensures ParseNumber(d) == Ok(Int(DigitsValue(d)))
  {
    StrippedDigitRun(d);
    ParseUnspaced(d);
  }

  /** A grouped numeral starts and ends with a digit and holds only digits and separators. */
  lemma {:induction false} GroupedChars(d: string, sep: char)
    requires IsDigitRun(d) && !IsDigit(sep)
    ensures var s := Grouped(d, sep);
      && |s| > 0 && IsDigit(s[0]) && IsDigit(s[|s| - 1])
      && (forall x :: x in s ==> IsDigit(x) || x == sep)
      && (|d| > 3 ==> sep in s)
    decreases |d|
  {
    if |d| > 3 {
      var h, t := d[..|d| - 3], d[|d| - 3..];
      var gh := Grouped(h, sep);
      GroupedChars(h, sep);
      var s := gh + [sep] + t;
      assert Grouped(d, sep) == s;
      assert s[|gh|] == sep;
      assert s[0] == gh[0];
      assert s[|s| - 1] == t[2] == d[|d| - 1];
      forall x | x in s ensures IsDigit(x) || x == sep {
        if x in t {
          var i :| 0 <= i < |t| && t[i] == x;
          assert d[|d| - 3 + i] == x;
        }
      }
    }
  }

  /** Taking the separators out of a grouped numeral gives back the digits. */
  lemma {:induction false} GroupedRemove(d: string, sep: char)
    requires IsDigitRun(d) && !IsDigit(sep)
    ensures Remove(Grouped(d, sep), sep) == d
    decreases |d|
  {
    if |d| <= 3 {
      AllDigitsExclude(d, sep);
      RemoveAbsent(d, sep);
    } else {
      var h, t := d[..|d| - 3], d[|d| - 3..];
      var gh := Grouped(h, sep);
      assert Grouped(d, sep) == gh + [sep] + t;
      assert Remove(gh + [sep], sep) == h by {
        assert IsDigitRun(h);
        GroupedRemove(h, sep);
        RemoveAppend(gh, [sep], sep);
        assert Remove([sep], sep) == [];
      }
      assert Remove(t, sep) == t by {
        assert IsDigitRun(t);
        AllDigitsExclude(t, sep);
        RemoveAbsent(t, sep);
      }
      RemoveAppend(gh + [sep], t, sep);
      assert h + t == d;
    }
  }

  /** The groups of a grouped numeral: one to three digits first, then exactly three each. */
  lemma {:induction false} GroupedPieces(d: string, sep: char)
    requires IsDigitRun(d) && !IsDigit(sep)
    ensures var g := Split(Grouped(d, sep), sep);
      && |g| == (|d| + 2) / 3
      && IsDigitRun(g[0]) && |g[0]| <= 3
      && (forall k :: 1 <= k < |g| ==> IsDigitRun(g[k]) && |g[k]| == 3)
    decreases |d|
  {
    if |d| <= 3 {
      AllDigitsExclude(d, sep);
      SplitNoSep(d, sep);
    } else {
      var h, t := d[..|d| - 3], d[|d| - 3..];
      var gh := Grouped(h, sep);
      GroupedPieces(h, sep);
      AllDigitsExclude(t, sep);
      assert Grouped(d, sep) == gh + [sep] + t;
      SplitSnoc(gh, sep, t);
      var gs := Split(gh, sep);
      var g := gs + [t];
      assert g[0] == gs[0];
      assert forall k :: 1 <= k < |gs| ==> g[k] == gs[k];
      assert g[|g| - 1] == t;
    }
  }

  /** Flatten of a two-piece split. */
  lemma {:induction false} FlattenPair(g: seq<string>)
    requires |g| == 2
    ensures Flatten(g) == g[0] + g[1]
  {
    assert Flatten(g[1..]) == g[1] + Flatten(g[2..]);
  }

  lemma {:induction false} StrippedDotGrouped(d: string)
    requires IsDigitRun(d) && |d| > 3
    ensures ParseStripped(Grouped(d, '.')) == Ok(Int(DigitsValue(d)))
  {
    var s := Grouped(d, '.');
    GroupedPieces(d, '.');
    GroupedRemove(d, '.');
    assert IsThousandDots(s);
  }

  lemma {:induction false} StrippedCommaGrouped(d: string)
    requires IsDigitRun(d) && |d| > 3
    ensures ParseStripped(Grouped(d, ',')) == Ok(Int(DigitsValue(d)))
  {
    var s := Grouped(d, ',');
    GroupedChars(d, ',');
    GroupedPieces(d, ',');
    GroupedRemove(d, ',');
    assert '.' !in s;
    SplitNoSep(s, '.');
    assert !IsThousandDots(s);
    assert ParseStripped(s) == CommaNumber(s);
    var g := Split(s, ',');
    if |d| <= 6 {
      assert |g| == 2 && |g[1]| == 3;
      SplitFlatten(s, ',');
      FlattenPair(g);
      assert g[0] + g[1] == d;
    } else {
      assert !IsDigitPair(g);
      PyIntDigitRun(d);
    }
  }

  /** Any numeral written with thousand dots or thousand commas reads back as its integer. */
  lemma {:induction false} ParseGrouped(d: string, sep: char)
    requires IsDigitRun(d) && (sep == '.' || sep == ',')
    ensures ParseNumber(Grouped(d, sep)) == Ok(Int(DigitsValue(d)))
  {
    if |d| <= 3 {
      ParseDigitRun(d);
    } else {
      if sep == '.' {
        StrippedDotGrouped(d);
      } else {
        StrippedCommaGrouped(d);
      }
      GroupedChars(d, sep);
      ParseUnspaced(Grouped(d, sep));
    }
  }

  /** str(n) read back: parse_number(str(n)) == n. */
  lemma {:induction false} ParseDigitsOf(n: nat)
    ensures ParseNumber(DigitsOf(n)) == Ok(Int(n))
  {
    ParseDigitRun(DigitsOf(n));
  }

  lemma {:induction false} StrippedCommaPair(a: string, b: string)
    requires IsDigitRun(a) && IsDigitRun(b)
    ensures ParseStripped(a + [','] + b) ==
      if |b| == 3 then Ok(Int(DigitsValue(a + b))) else Ok(Dec(DigitsValue(a + b), |b|))
  {
    var s := a + [','] + b;
    assert s[|a|] == ',';
    assert '.' !in s && !IsThousandDots(s) by {
      AllDigitsExclude(a, '.');
      AllDigitsExclude(b, '.');
      SplitNoSep(s, '.');
    }
    assert Split(s, ',') == [a, b] by {
      AllDigitsExclude(a, ',');
      AllDigitsExclude(b, ',');
      SplitAppend(a, ',', b);
      SplitNoSep(b, ',');
    }
    assert ParseStripped(s) == CommaNumber(s);
    StripUnspaced(s);
  }

  /** "68,200" is a thousands separator, "42,2" a decimal comma: decided by the right group's length. */
  lemma {:induction false} ParseCommaPair(a: string, b: string)
    requires IsDigitRun(a) && IsDigitRun(b)
    ensures ParseNumber(a + [','] + b) ==
      if |b| == 3 then Ok(Int(DigitsValue(a + b))) else Ok(Dec(DigitsValue(a + b), |b|))
  {
    var s := a + [','] + b;
    assert s[0] == a[0] && s[|s| - 1] == b[|b| - 1];
    StrippedCommaPair(a, b);
    ParseUnspaced(s);
  }

  lemma {:induction false} StrippedDotPair(a: string, b: string)
    requires IsDigitRun(a) && IsDigitRun(b)
    ensures ParseStripped(a + ['.'] + b) ==
      if |a| <= 3 && |b| == 3 then Ok(Int(DigitsValue(a + b)))
      else Ok(Dec(DigitsValue(a + b), |b|))
  {
    var s := a + ['.'] + b;
    AllDigitsExclude(a, '.');
    AllDigitsExclude(b, '.');
    AllDigitsExclude(a, ',');
    AllDigitsExclude(b, ',');
    assert ',' !in s;
    SplitAppend(a, '.', b);
    SplitNoSep(b, '.');
    var g := Split(s, '.');
    assert g == [a, b] && g[0] == a && g[1] == b;
    if |a| <= 3 && |b| == 3 {
      assert IsThousandDots(s);
      RemoveAround(a, '.', b);
    } else {
      assert !IsThousandDots(s) by {
        if |b| != 3 {
          assert !(IsDigitRun(g[1]) && |g[1]| == 3);
        }
      }
      assert ParseStripped(s) == PlainNumber(s);
    }
  }

  /**
   * "123.45" is a decimal, but a single dot followed by exactly three digits after at
   * most three digits is a thousands dot: "4.500" reads as 4500.
   */
  lemma {:induction false} ParseDotPair(a: string, b: string)
    requires IsDigitRun(a) && IsDigitRun(b)
    ensures ParseNumber(a + ['.'] + b) ==
      if |a| <= 3 && |b| == 3 then Ok(Int(DigitsValue(a + b)))
      else Ok(Dec(DigitsValue(a + b), |b|))
  {
    var s := a + ['.'] + b;
    assert s[0] == a[0] && s[|s| - 1] == b[|b| - 1];
    StrippedDotPair(a, b);
    ParseUnspaced(s);
  }

  /** The characters a number accepted by parse_number can contain. */
  predicate NumberChar(c: char) {
    IsDigit(c) || c == '.' || c == ',' || c == '+' || c == '-' || c == '_' || IsSpace(c)
  }

  /** When int() accepts a text, the text holds only whitespace, a sign, digits and underscores. */
  lemma {:induction false} PyIntChars(t: string, x: char)
    requires PyInt(t).Some? && x in t
    ensures IsSpace(x) || IsDigit(x) || x == '+' || x == '-' || x == '_'
  {
    var u := Strip(t);
    StripMember(t, x);
    if !IsSpace(x) {
      var i :| 0 <= i < |u| && u[i] == x;
      if |u| > 0 && (u[0] == '+' || u[0] == '-') && i > 0 {
        assert u[1..][i - 1] == x;
      }
    }
  }

  /** A piece of a split holds no character other than those of the text. */
  lemma {:induction false} SplitPieceChar(s: string, sep: char, x: char)
    requires x in s && x != sep && forall j :: 0 <= j < |Split(s, sep)| ==> AllDigits(Split(s, sep)[j])
    ensures IsDigit(x)
  {
    RemoveMember(s, sep, x);
    SplitFlatten(s, sep);
    FlattenMember(Split(s, sep), x);
  }

  lemma {:induction false} PlainRejectsForeign(s: string, x: char)
    requires x in s && !NumberChar(x)
    ensures PlainNumber(s).Err?
  {
    var g := Split(s, '.');
    if IsDigitPair(g) {
      assert forall j :: 0 <= j < |g| ==> AllDigits(g[j]);
      SplitPieceChar(s, '.', x);
    }
  }

  lemma {:induction false} CommaRejectsForeign(s: string, x: char)
    requires x in s && !NumberChar(x)
    ensures CommaNumber(s).Err?
  {
    var g := Split(s, ',');
    if IsDigitPair(g) {
      assert forall j :: 0 <= j < |g| ==> AllDigits(g[j]);
      SplitPieceChar(s, ',', x);
    } else if forall k :: 1 <= k < |g| ==> |g[k]| <= 3 {
      if PyInt(Remove(s, ',')).Some? {
        RemoveMember(s, ',', x);
        PyIntChars(Remove(s, ','), x);
      }
    } else {
      PlainRejectsForeign(s, x);
    }
  }

  lemma {:induction false} StrippedRejectsForeign(s: string, x: char)
    requires x in s && !NumberChar(x)
    ensures ParseStripped(s).Err?
  {
    if IsThousandDots(s) {
      SplitPieceChar(s, '.', x);
    } else if ',' in s && '.' !in s {
      CommaRejectsForeign(s, x);
    } else {
      PlainRejectsForeign(s, x);
    }
  }

  /** Anything with a character no rule accepts raises: "12a" is not a number. */
  lemma {:induction false} ParseRejectsForeign(raw: string, x: char)
    requires x in raw && !NumberChar(x)
    ensures ParseNumber(raw).Err?
  {
    StripMember(raw, x);
    StrippedRejectsForeign(Strip(raw), x);
  }

  lemma {:induction false} StrippedRejectsMixed(s: string)
    requires '.' in s && ',' in s
    ensures ParseStripped(s).Err?
  {
    if IsThousandDots(s) {
      SplitPieceChar(s, '.', ',');
    }
    if IsDigitPair(Split(s, '.')) {
      SplitPieceChar(s, '.', ',');
    }
  }

  /** A text holding both a dot and a comma matches no rule. */
  lemma {:induction false} ParseRejectsMixedSeparators(raw: string)
    requires '.' in raw && ',' in raw
    ensures ParseNumber(raw).Err?
  {
    StripMember(raw, '.');
    StripMember(raw, ',');
    StrippedRejectsMixed(Strip(raw));
  }

  lemma {:induction false} PyIntNonNegative(t: string)
    requires '-' !in t && PyInt(t).Some?
    ensures PyInt(t).value >= 0
  {
    StripMember(t, '-');
  }

  lemma {:induction false} PlainNonNegative(s: string)
    requires PlainNumber(s).Ok?
    ensures Truncate(PlainNumber(s).value) >= 0
    ensures PlainNumber(s).value.Int? ==> PlainNumber(s).value.i >= 0
  {
  }

  lemma {:induction false} CommaNonNegative(s: string)
    requires '-' !in s && CommaNumber(s).Ok?
    ensures Truncate(CommaNumber(s).value) >= 0
    ensures CommaNumber(s).value.Int? ==> CommaNumber(s).value.i >= 0
  {
    var g := Split(s, ',');
    if IsDigitPair(g) {
    } else if forall k :: 1 <= k < |g| ==> |g[k]| <= 3 {
      RemoveMember(s, ',', '-');
      PyIntNonNegative(Remove(s, ','));
    } else {
      PlainNonNegative(s);
    }
  }

  lemma {:induction false} StrippedNonNegative(s: string)
    requires '-' !in s && ParseStripped(s).Ok?
    ensures Truncate(ParseStripped(s).value) >= 0
    ensures ParseStripped(s).value.Int? ==> ParseStripped(s).value.i >= 0
  {
    if IsThousandDots(s) {
    } else if ',' in s && '.' !in s {
      CommaNonNegative(s);
    } else {
      PlainNonNegative(s);
    }
  }

  /** Without a minus sign, every number read is non-negative, and so is its truncation. */
  lemma {:induction false} ParseNonNegative(raw: string)
    requires '-' !in raw && ParseNumber(raw).Ok?
    ensures Truncate(ParseNumber(raw).value) >= 0
    ensures ParseNumber(raw).value.Int? ==> ParseNumber(raw).value.i >= 0
  {
    StripMember(raw, '-');
    StrippedNonNegative(Strip(raw));
  }

  /** Reading one more digit: the value so far times ten, plus the digit. */
  lemma {:induction false} DigitsSnoc(p: string, c: char, s: string)
    requires s == p + [c]
    ensures DigitsValue(s) == 10 * DigitsValue(p) + DigitValue(c)
  {
    assert s[..|s| - 1] == p;
  }

  /** The values of the numerals the worked examples use. */
  lemma {:induction false} Value68200()
    ensures DigitsValue("68200") == 68200
  {
    DigitsSnoc("", '6', "6");
    DigitsSnoc("6", '8', "68");
    DigitsSnoc("68", '2', "682");
    DigitsSnoc("682", '0', "6820");
    DigitsSnoc("6820", '0', "68200");
  }

  lemma {:induction false} Value422()
    ensures DigitsValue("422") == 422
  {
    DigitsSnoc("", '4', "4");
    DigitsSnoc("4", '2', "42");
    DigitsSnoc("42", '2', "422");
  }

  lemma {:induction false} Value42486000()
    ensures DigitsValue("42486000") == 42486000
  {
    DigitsSnoc("", '4', "4");
    DigitsSnoc("4", '2', "42");
    DigitsSnoc("42", '4', "424");
    DigitsSnoc("424", '8', "4248");
    DigitsSnoc("4248", '6', "42486");
    DigitsSnoc("42486", '0', "424860");
    DigitsSnoc("424860", '0', "4248600");
    DigitsSnoc("4248600", '0', "42486000");
  }

  /** The worked examples of the number rules. */
  lemma {:induction false} ExampleThousandDots()
    ensures ParseNumber("42.486.000") == Ok(Int(42486000))
  {
    assert Grouped("42486000", '.') == "42.486.000";
    ParseGrouped("42486000", '.');
    Value42486000();
  }

  /** ParseCommaPair for a literal: the page text s is a + "," + b, and a + b reads as v. */
  lemma {:induction false} CommaPairLiteral(a: string, b: string, s: string, v: nat)
    requires IsDigitRun(a) && IsDigitRun(b) && s == a + [','] + b && DigitsValue(a + b) == v
    ensures ParseNumber(s) == if |b| == 3 then Ok(Int(v)) else Ok(Dec(v, |b|))
  {
    ParseCommaPair(a, b);
  }

  lemma {:induction false} ExampleThousandComma()
    ensures ParseNumber("68,200") == Ok(Int(68200))
  {
    assert DigitsValue("68" + "200") == 68200 by {
      assert "68" + "200" == "68200";
      Value68200();
    }
    CommaPairLiteral("68", "200", "68,200", 68200);
  }

  lemma {:induction false} ExampleDecimalComma()
    ensures ParseNumber("42,2") == Ok(Dec(422, 1))
  {
    assert DigitsValue("42" + "2") == 422 by {
      assert "42" + "2" == "422";
      Value422();
    }
    CommaPairLiteral("42", "2", "42,2", 422);
  }

  /**
   * The shapes parse_number accepts, on a stripped text: thousand dots, one comma between
   * digit runs, several commas whose later groups are at most three long and whose join
   * int() reads, one dot between digit runs, and a plain digit run.
   */
  predicate AcceptedShape(s: string) {
    var c := Split(s, ',');
    || IsThousandDots(s)
    || (',' in s && '.' !in s && IsDigitPair(c))
    || (',' in s && '.' !in s && (forall k :: 1 <= k < |c| ==> |c[k]| <= 3) && PyInt(Remove(s, ',')).Some?)
    || IsDigitPair(Split(s, '.'))
    || IsDigitRun(s)
  }

  /** A split into two or more pieces means the separator occurs. */
  lemma {:induction false} SplitMany(s: string, sep: char)
    requires |Split(s, sep)| >= 2
    ensures sep in s
  {
    if sep !in s {
      SplitNoSep(s, sep);
    }
  }

  lemma {:induction false} StrippedShape(s: string)
    ensures ParseStripped(s).Ok? <==> AcceptedShape(s)
  {
    var c := Split(s, ',');
    var d := Split(s, '.');
    if ',' in s && '.' !in s && !IsThousandDots(s) {
      if !IsDigitPair(c) && !(forall k :: 1 <= k < |c| ==> |c[k]| <= 3) {
        SplitNoSep(s, '.');
        if IsDigitRun(s) {
          AllDigitsExclude(s, ',');
        }
        assert PlainNumber(s).Err?;
      }
    }
    if IsDigitPair(d) {
      SplitMany(s, '.');
    }
    if IsDigitRun(s) {
      AllDigitsExclude(s, ',');
    }
  }

  /**
   * parse_number succeeds exactly on the texts that, once stripped, take one of the accepted
   * shapes; anything else, such as ".", "1.2.3" or "1,2345,6", raises.
   */
  lemma {:induction false} ParseNumberShape(raw: string)
    ensures ParseNumber(raw).Ok? <==> AcceptedShape(Strip(raw))
  {
    StrippedShape(Strip(raw));
  }

  /**
   * Several commas between digit runs whose later groups are at most three long: the groups
   * are joined and read as one integer, so "1,234,567" is 1234567 and "12,34,5" is 12345.
   */
  lemma {:induction false} ParseMultiComma(s: string)
    requires |Split(s, ',')| >= 3
    requires forall k :: 0 <= k < |Split(s, ',')| ==> IsDigitRun(Split(s, ',')[k])
    requires forall k :: 1 <= k < |Split(s, ',')| ==> |Split(s, ',')[k]| <= 3
    ensures ParseNumber(s) == Ok(Int(DigitsValue(Remove(s, ','))))
  {
    MultiCommaText(s);
    PyIntDigitRun(Remove(s, ','));
    assert CommaNumber(s) == Ok(Int(DigitsValue(Remove(s, ','))));
    assert ParseStripped(s) == CommaNumber(s);
  }

  /** A text ending in the separator splits with an empty last piece. */
  lemma {:induction false} SplitTrailing(s: string, sep: char)
    requires s != [] && s[|s| - 1] == sep
    ensures Split(s, sep)[|Split(s, sep)| - 1] == []
  {
    SplitSnoc(s[..|s| - 1], sep, []);
    assert s[..|s| - 1] + [sep] + [] == s;
  }

  /** The text of digit runs joined by commas: commas, no dot, digits at both ends. */
  lemma {:induction false} MultiCommaText(s: string)
    requires |Split(s, ',')| >= 2
    requires forall k :: 0 <= k < |Split(s, ',')| ==> IsDigitRun(Split(s, ',')[k])
    ensures ',' in s && '.' !in s && Split(s, '.') == [s] && !IsSpace(s[0]) && !IsSpace(s[|s| - 1])
    ensures IsDigitRun(Remove(s, ','))
  {
    var g := Split(s, ',');
    assert forall j :: 0 <= j < |g| ==> AllDigits(g[j]);
    forall x | x in s && x != ','
      ensures IsDigit(x)
    {
      SplitPieceChar(s, ',', x);
    }
    SplitMany(s, ',');
    if s[|s| - 1] == ',' {
      SplitTrailing(s, ',');
    }
    assert s[0] in s && s[|s| - 1] in s;
    assert !IsDigit('.');
    var t := Remove(s, ',');
    forall i | 0 <= i < |t|
      ensures IsDigit(t[i])
    {
      assert t[i] in t;
      RemoveMember(s, ',', t[i]);
    }
    SplitFlatten(s, ',');
    assert Flatten(g) == g[0] + Flatten(g[1..]);
    SplitNoSep(s, '.');
    assert IsDigit(s[0]) && IsDigit(s[|s| - 1]);
  }

  /** "1.2.3" has a group too short for thousand dots and too many for a decimal. */
  lemma {:induction false} ExampleRejectedDots()
    ensures ParseNumber("1.2.3").Err?
  {
    assert "1.2.3" == "1" + ['.'] + "2" + ['.'] + "3";
    SplitThree("1", "2", "3", '.');
    var d := Split("1.2.3", '.');
    assert d == ["1", "2", "3"];
    assert !IsThousandDots("1.2.3") by {
      assert |d[1]| == 1;
    }
    assert !IsDigitRun("1.2.3") by {
      assert "1.2.3"[1] == '.';
    }
    assert ',' !in "1.2.3";
    StripUnspaced("1.2.3");
    StrippedShape("1.2.3");
  }

  lemma {:induction false} StrippedLongCommaGroup(s: string, k: nat)
    requires ',' in s && '.' !in s && !IsDigitPair(Split(s, ','))
    requires 1 <= k < |Split(s, ',')| && |Split(s, ',')[k]| > 3
    ensures ParseStripped(s).Err?
  {
    SplitNoSep(s, '.');
    if IsDigitRun(s) {
      AllDigitsExclude(s, ',');
    }
  }

  /** With commas and no dot, a later group longer than three makes the text raise. */
  lemma {:induction false} ParseLongCommaGroup(raw: string, k: nat)
    requires ',' in Strip(raw) && '.' !in Strip(raw) && !IsDigitPair(Split(Strip(raw), ','))
    requires 1 <= k < |Split(Strip(raw), ',')| && |Split(Strip(raw), ',')[k]| > 3
    ensures ParseNumber(raw).Err?
  {
    StrippedLongCommaGroup(Strip(raw), k);
  }

  /** "1,2345,6" has a later group longer than three. */
  lemma {:induction false} ExampleRejectedCommas()
    ensures ParseNumber("1,2345,6").Err?
  {
    CommaExample("1,2345,6");
  }

  lemma {:induction false} CommaExample(s: string)
    requires s == "1,2345,6"
    ensures ParseNumber(s).Err?
  {
    CommaExampleSplit(s);
    assert s[1] == ',';
    StrippedLongCommaGroup(s, 1);
    StripUnspaced(s);
  }

  lemma {:induction false} CommaExampleSplit(s: string)
    requires s == "1,2345,6"
    ensures Split(s, ',') == ["1", "2345", "6"]
  {
    assert s == "1" + [','] + "2345" + [','] + "6";
    SplitThree("1", "2345", "6", ',');
  }

  /** Splitting three separator-free pieces joined by the separator gives them back. */
  lemma {:induction false} SplitThree(a: string, b: string, c: string, sep: char)
    requires sep !in a && sep !in b && sep !in c
    ensures Split(a + [sep] + b + [sep] + c, sep) == [a, b, c]
  {
    SplitNoSep(c, sep);
    SplitAppend(b, sep, c);
    SplitAppend(a, sep, b + [sep] + c);
    assert a + [sep] + b + [sep] + c == a + [sep] + (b + [sep] + c);
  }

  /** A lone dot is neither a decimal nor a digit run. */
  lemma {:induction false} ExampleRejectedDot()
    ensures ParseNumber(".").Err?
  {
    DotExample(".");
  }

  lemma {:induction false} DotExample(s: string)
    requires s == "."
    ensures ParseNumber(s).Err?
  {
    SplitAppend([], '.', []);
    SplitNoSep([], '.');
    assert [] + ['.'] + [] == s;
    assert Split(s, '.') == [[], []];
    assert !IsDigitRun(s) && ',' !in s;
    StrippedShape(s);
    StripUnspaced(s);
  }

  lemma {:induction false} ExampleRejected()
    ensures ParseNumber("12a").Err?
  {
    ParseRejectsForeign("12a", 'a');
  }
}
