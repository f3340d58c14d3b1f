/**
 * Stat blocks: a header line such as "Gold [1381]" followed by four metric lines
 * (top speed, acceleration, handling, nitro). parse_stat_block reads one block and
 * the driver loop of parse_mei_page walks the page collecting every complete one.
 */
module Stats {
  import opened Basics
  import opened Text
  import opened Numbers
  import opened Runs

  /** The star glyph. */
  const STAR: char := '\U{2b50}'

  /** The four kinds of stat block. */
  datatype Kind = Stock | Star | MaxWoEpics | Gold

  /** One or more star glyphs and nothing else. */
  predicate AllStars(s: string) {
    |s| > 0 && forall k :: 0 <= k < |s| ==> s[k] == STAR
  }

  /** The title alternatives Stock|Gold|Max w/o epics|⭐+ and the kind each one names. */
  function LabelKind(title: string): Option<Kind> {
    if title == "Stock" then Some(Stock)
    else if title == "Gold" then Some(Gold)
    else if title == "Max w/o epics" then Some(MaxWoEpics)
    else if AllStars(title) then Some(Star)
    else None
  }

  /** What a header line carries. */
  datatype Header = Header(kind: Kind, title: string, rank: nat)

  /** StatEntry: the header fields and the four metric values, in page order. */
  datatype StatEntry = StatEntry(
    kind: Kind, title: string, rank: nat,
    topSpeed: Num, accel: Num, handling: Num, nitro: Num)

  /**
   * re.match(r"^(Stock|Gold|Max w/o epics|⭐+)\s*\[(\d+)\]$", line). No title
   * alternative and no whitespace holds "[", so the bracket the pattern matches is
   * the first one of the line; a title never ends in whitespace, so dropping the
   * trailing whitespace in front of the bracket leaves exactly the title.
   */
  function ParseHeader(line: string): (r: Option<Header>)
    ensures r.Some? ==> LabelKind(r.value.title) == Some(r.value.kind)
  {
    var b := IndexOf(line, 0, '[');
    if b + 1 < |line| && line[|line| - 1] == ']' && IsDigitRun(line[b + 1..|line| - 1]) then
      var title := DropTrailing(line[..b]);
      match LabelKind(title)
      case Some(k) => Some(Header(k, title, DigitsValue(line[b + 1..|line| - 1])))
      case None => None
    else None
  }

  predicate IsHeader(line: string) {
    ParseHeader(line).Some?
  }

  /** line is title, whitespace sp, "[", the digit run d and "]". */
  predicate HeaderSplit(line: string, title: string, sp: string, d: string) {
    AllSpace(sp) && IsDigitRun(d) && line == title + sp + "[" + d + "]"
  }

  /** A title is non-empty, has no "[" and does not end in whitespace. */
  lemma {:induction false} LabelShape(title: string)
    requires LabelKind(title).Some?
    ensures title != [] && !IsSpace(title[|title| - 1])
    ensures forall k :: 0 <= k < |title| ==> title[k] != '['
  {
  }

  /** Every text the header pattern matches is recognised, with its title and rank. */
  lemma {:induction false} HeaderComplete(title: string, sp: string, d: string)
    requires LabelKind(title).Some? && AllSpace(sp) && IsDigitRun(d)
    ensures ParseHeader(title + sp + "[" + d + "]")
         == Some(Header(LabelKind(title).value, title, DigitsValue(d)))
  {
    var line := title + sp + "[" + d + "]";
    var p := |title| + |sp|;
    LabelShape(title);
    assert line[p] == '[';
    forall m | 0 <= m < p
      ensures line[m] != '['
    {
      if m < |title| {
        assert line[m] == title[m];
      } else {
        assert line[m] == sp[m - |title|];
      }
    }
    assert IndexOf(line, 0, '[') == p;
    assert line[..p] == title + sp;
    assert line[p + 1..|line| - 1] == d;
    DropTrailingSpaces(title, sp);
  }

  /** Every recognised header is a title, whitespace and a bracketed digit run giving its rank. */
  lemma {:induction false} HeaderSound(line: string)
    requires IsHeader(line)
    ensures var h := ParseHeader(line).value;
      exists sp, d {:trigger HeaderSplit(line, h.title, sp, d)} ::
        HeaderSplit(line, h.title, sp, d) && DigitsValue(d) == h.rank
  {
    var h := ParseHeader(line).value;
    var b := IndexOf(line, 0, '[');
    var head := line[..b];
    DropTrailingRest(head);
    var sp := head[|h.title|..];
    var d := line[b + 1..|line| - 1];
    assert head == h.title + sp;
    assert line == head + "[" + d + "]";
    assert HeaderSplit(line, h.title, sp, d);
  }

  /** A [\d.,] character at p. */
  predicate NumberStart(s: string, p: nat) {
    p < |s| && InClass(s[p], NumberChars)
  }

  /** ([\d.,]+)\s*km/h matches at p: the number run there is followed by optional whitespace and "km/h". */
  predicate SpeedAt(s: string, p: nat) {
    NumberStart(s, p) && HasAt(s, RunEnd(s, RunEnd(s, p, NumberChars), Spaces), "km/h")
  }

  /** The first position at or after i where the speed pattern matches. */
  function FirstSpeed(s: string, i: nat): (r: Option<nat>)
    requires i <= |s|
    ensures r.Some? ==> i <= r.value && SpeedAt(s, r.value)
    ensures r.Some? ==> forall m :: i <= m < r.value ==> !SpeedAt(s, m)
    ensures r.None? ==> forall m :: i <= m < |s| ==> !SpeedAt(s, m)
    decreases |s| - i
  {
    if i == |s| then None else if SpeedAt(s, i) then Some(i) else FirstSpeed(s, i + 1)
  }

  /** The first position at or after i holding a [\d.,] character. */
  function FirstNumber(s: string, i: nat): (r: Option<nat>)
    requires i <= |s|
    ensures r.Some? ==> i <= r.value && NumberStart(s, r.value)
    ensures r.Some? ==> forall m :: i <= m < r.value ==> !NumberStart(s, m)
    ensures r.None? ==> forall m :: i <= m < |s| ==> !NumberStart(s, m)
    decreases |s| - i
  {
    if i == |s| then None else if NumberStart(s, i) then Some(i) else FirstNumber(s, i + 1)
  }

  /**
   * The span of the value a metric line contributes: the run right before "km/h"
   * when the line has one, else its first [\d.,]+ run.
   */
  function MetricSpan(line: string): (r: Option<(nat, nat)>)
    ensures r.Some? ==> r.value.0 < r.value.1 <= |line|
  {
    match FirstSpeed(line, 0)
    case Some(p) => Some((p, RunEnd(line, p, NumberChars)))
    case None =>
      match FirstNumber(line, 0)
      case Some(p) => Some((p, RunEnd(line, p, NumberChars)))
      case None => None
  }

  /** The text of that span. */
  function MetricToken(line: string): Option<string> {
    match MetricSpan(line)
    case Some((a, b)) => Some(line[a..b])
    case None => None
  }

  /** A number run starting inside another one shares its end, so it is the same match. */
  lemma {:induction false} SpeedAtEarlier(s: string, p: nat)
    requires 0 < p && NumberStart(s, p - 1) && SpeedAt(s, p)
    ensures SpeedAt(s, p - 1)
  {
    RunEndInside(s, p - 1, p, NumberChars);
  }

  /**
   * The metric span is a maximal [\d.,] run; there is none exactly when the line
   * has no [\d.,] character; and it is the first run followed by "km/h" when any
   * run is, else the first run of the line.
   */
  lemma {:induction false} MetricSpanSpec(line: string)
    ensures MetricSpan(line).None? <==> forall m :: 0 <= m < |line| ==> !NumberStart(line, m)
    ensures MetricSpan(line).Some? ==>
      var (a, b) := MetricSpan(line).value;
      && AllIn(line, a, b, NumberChars)
      && (b == |line| || !InClass(line[b], NumberChars))
      && (a == 0 || !InClass(line[a - 1], NumberChars))
    ensures MetricSpan(line).Some? ==>
      var a := MetricSpan(line).value.0;
      || (SpeedAt(line, a) && forall m :: 0 <= m < a ==> !SpeedAt(line, m))
      || ((forall m :: 0 <= m < |line| ==> !SpeedAt(line, m))
          && forall m :: 0 <= m < a ==> !NumberStart(line, m))
  {
    match FirstSpeed(line, 0)
    case Some(p) =>
      RunEndSpec(line, p, NumberChars);
      if 0 < p && InClass(line[p - 1], NumberChars) {
        SpeedAtEarlier(line, p);
        assert false;
      }
    case None =>
      match FirstNumber(line, 0)
      case Some(p) =>
        RunEndSpec(line, p, NumberChars);
        if 0 < p {
          assert !NumberStart(line, p - 1);
        }
      case None =>
  }

  /**
   * What a line is to the stat loops: a header (checked first, as both loops do), a
   * line with a value token together with parse_number of that token, or neither.
   */
  datatype LineRole =
    | HeaderLine(header: Header)
    | ValueLine(token: string, value: Result<Num, Error>)
    | OtherLine

  function Role(line: string): LineRole {
    match ParseHeader(line)
    case Some(h) => HeaderLine(h)
    case None =>
      match MetricToken(line)
      case Some(t) => ValueLine(t, ParseNumber(t))
      case None => OtherLine
  }

  /** The role of every page line, in order. */
  function Roles(lines: seq<string>): (r: seq<LineRole>)
    ensures |r| == |lines|
    ensures forall k {:trigger r[k]} :: 0 <= k < |lines| ==> r[k] == Role(lines[k])
  {
    seq(|lines|, k requires 0 <= k < |lines| => Role(lines[k]))
  }

  /** Headers come with a title of the kind they name. */
  predicate TitledHeaders(rs: seq<LineRole>) {
    forall k {:trigger rs[k]} :: 0 <= k < |rs| && rs[k].HeaderLine? ==>
      LabelKind(rs[k].header.title) == Some(rs[k].header.kind)
  }

  /** Every value that failed to parse failed with a parse_number error. */
  predicate NumberErrors(rs: seq<LineRole>) {
    forall k {:trigger rs[k]} :: 0 <= k < |rs| && rs[k].ValueLine? && rs[k].value.Err? ==>
      IsNumberError(rs[k].value.error)
  }

  lemma {:induction false} RolesWellFormed(lines: seq<string>)
    ensures TitledHeaders(Roles(lines)) && NumberErrors(Roles(lines))
  {
  }

  /** How many value lines rs holds. */
  function ValueCount(rs: seq<LineRole>): nat {
    if rs == [] then 0 else (if rs[0].ValueLine? then 1 else 0) + ValueCount(rs[1..])
  }

  /** The values of the value lines, in order; the first one that failed to parse is the result. */
  function ParseAll(rs: seq<LineRole>): (r: Result<seq<Num>, Error>)
    ensures r.Ok? ==> |r.value| == ValueCount(rs)
  {
    if rs == [] then Ok([])
    else
      match rs[0]
      case ValueLine(_, Err(e)) => Err(e)
      case ValueLine(_, Ok(v)) =>
        (match ParseAll(rs[1..])
         case Err(e) => Err(e)
         case Ok(vs) => Ok([v] + vs))
      case _ => ParseAll(rs[1..])
  }

  lemma {:induction false} SliceCons(rs: seq<LineRole>, i: nat, j: nat)
    requires i < j <= |rs|
    ensures rs[i..j][0] == rs[i] && rs[i..j][1..] == rs[i + 1..j]
  {
  }

  /**
   * The lines parse_stat_block reads for up to n more values from line i: it stops at
   * the end of the page, at a header line, or right after the line that gave the n-th
   * value.
   */
  function Window(rs: seq<LineRole>, i: nat, n: nat): (j: nat)
    requires i <= |rs|
    ensures i <= j <= |rs|
    decreases |rs| - i
  {
    if i == |rs| || n == 0 || rs[i].HeaderLine? then i
    else if rs[i].ValueLine? then Window(rs, i + 1, n - 1)
    else Window(rs, i + 1, n)
  }

  /**
   * The window holds no header and at most n values; when it holds fewer it ends at
   * the end of the page or at a header, and when it holds n it ends right after the
   * line that gave the last one.
   */
  lemma {:induction false} WindowSpec(rs: seq<LineRole>, i: nat, n: nat)
    requires i <= |rs|
    ensures var j := Window(rs, i, n);
      && (forall m :: i <= m < j ==> !rs[m].HeaderLine?)
      && ValueCount(rs[i..j]) <= n
      && (ValueCount(rs[i..j]) < n ==> j == |rs| || rs[j].HeaderLine?)
      && (0 < n == ValueCount(rs[i..j]) ==> i < j && rs[j - 1].ValueLine?)
    decreases |rs| - i
  {
    var j := Window(rs, i, n);
    if i == |rs| || n == 0 || rs[i].HeaderLine? {
      assert rs[i..j] == [];
    } else {
      SliceCons(rs, i, j);
      if rs[i].ValueLine? {
        WindowSpec(rs, i + 1, n - 1);
      } else {
        WindowSpec(rs, i + 1, n);
      }
    }
  }

  /** The loop of parse_stat_block from line i, holding the values vals collected so far. */
  function Gather(rs: seq<LineRole>, i: nat, vals: seq<Num>): (r: Result<(seq<Num>, nat), Error>)
    requires i <= |rs| && |vals| <= 4
    ensures r.Ok? ==> i <= r.value.1 <= |rs| && |r.value.0| <= 4
    decreases |rs| - i
  {
    if i == |rs| || |vals| == 4 then Ok((vals, i))
    else
      match rs[i]
      case HeaderLine(_) => Ok((vals, i))
      case ValueLine(_, Err(e)) => Err(e)
      case ValueLine(_, Ok(v)) => Gather(rs, i + 1, vals + [v])
      case OtherLine => Gather(rs, i + 1, vals)
  }

  /** The loop's result once the values parsed from a window are known. */
  function Outcome(vals: seq<Num>, parsed: Result<seq<Num>, Error>, j: nat): Result<(seq<Num>, nat), Error> {
    match parsed
    case Err(e) => Err(e)
    case Ok(ws) => Ok((vals + ws, j))
  }

  /** The loop reads exactly the window and parses the values in it. */
  lemma {:induction false} GatherWindow(rs: seq<LineRole>, i: nat, vals: seq<Num>)
    requires i <= |rs| && |vals| <= 4
    ensures var j := Window(rs, i, 4 - |vals|);
      Gather(rs, i, vals) == Outcome(vals, ParseAll(rs[i..j]), j)
    decreases |rs| - i
  {
    var j := Window(rs, i, 4 - |vals|);
    if i == |rs| || |vals| == 4 || rs[i].HeaderLine? {
      assert rs[i..j] == [];
      assert vals + [] == vals;
    } else {
      SliceCons(rs, i, j);
      match rs[i]
      case ValueLine(_, Err(e)) =>
      case ValueLine(_, Ok(v)) =>
        GatherWindow(rs, i + 1, vals + [v]);
        match ParseAll(rs[i + 1..j]) {
          case Err(e) =>
          case Ok(ws) => assert vals + [v] + ws == vals + ([v] + ws);
        }
      case OtherLine =>
        GatherWindow(rs, i + 1, vals);
    }
  }

  /** The entry a header and its four values make. */
  function MakeEntry(h: Header, vs: seq<Num>): StatEntry
    requires |vs| == 4
  {
    StatEntry(h.kind, h.title, h.rank, vs[0], vs[1], vs[2], vs[3])
  }

  /** parse_stat_block(lines, start) as a value: the entry (if any) and the next index, or the parse error. */
  function StatBlock(rs: seq<LineRole>, start: nat): (r: Result<(Option<StatEntry>, nat), Error>)
    requires start < |rs|
    ensures r.Ok? ==> start <= r.value.1 <= |rs|
    ensures r.Ok? && rs[start].HeaderLine? ==> start < r.value.1
    ensures r.Ok? && r.value.0.Some? ==> rs[start].HeaderLine?
  {
    match rs[start]
    case HeaderLine(h) =>
      (match Gather(rs, start + 1, [])
       case Err(e) => Err(e)
       case Ok((vs, j)) =>
         if |vs| == 4 then Ok((Some(MakeEntry(h, vs)), j)) else Ok((None, j)))
    case _ => Ok((None, start))
  }

  /**
   * For a header line: the block fails exactly when a value of its window failed to
   * parse; otherwise the next index is the end of the window, and an entry comes back
   * exactly when the window holds four values, which are the entry's metrics in order,
   * with the header's kind, title and rank.
   */
  lemma {:induction false} StatBlockWindow(rs: seq<LineRole>, start: nat)
    requires start < |rs| && rs[start].HeaderLine?
    ensures var j := Window(rs, start + 1, 4);
      var w := rs[start + 1..j];
      var r := StatBlock(rs, start);
      && (r.Ok? <==> ParseAll(w).Ok?)
      && (r.Ok? ==> r.value.1 == j && (r.value.0.Some? <==> ValueCount(w) == 4))
      && (r.Ok? && r.value.0.Some? ==>
           var e := r.value.0.value;
           var h := rs[start].header;
           && [e.topSpeed, e.accel, e.handling, e.nitro] == ParseAll(w).value
           && e.kind == h.kind && e.title == h.title && e.rank == h.rank)
  {
    GatherWindow(rs, start + 1, []);
    var j := Window(rs, start + 1, 4);
    match ParseAll(rs[start + 1..j])
    case Err(e) =>
    case Ok(ws) =>
      assert [] + ws == ws;
  }

  /** parse_stat_block: a header, then a loop over the following lines collecting up to four values. */
  method ParseStatBlock(lines: seq<string>, start: nat) returns (r: Result<(Option<StatEntry>, nat), Error>)
    requires start < |lines|
    ensures r == StatBlock(Roles(lines), start)
  {
    ghost var rs := Roles(lines);
    var header := ParseHeader(lines[start]);
    if header.None? {
      return Ok((None, start));
    }
    var h := header.value;
    var stats: seq<Num> := [];
    var i := start + 1;
    while i < |lines| && |stats| < 4
      invariant start + 1 <= i <= |lines| && |stats| <= 4
      invariant Gather(rs, i, stats) == Gather(rs, start + 1, [])
      decreases |lines| - i
    {
      if IsHeader(lines[i]) {
        break;
      }
      var token := MetricToken(lines[i]);
      if token.Some? {
        var v := ParseNumber(token.value);
        if v.Err? {
          return Err(v.error);
        }
        stats := stats + [v.value];
      }
      i := i + 1;
    }
    if |stats| != 4 {
      return Ok((None, i));
    }
    return Ok((Some(StatEntry(h.kind, h.title, h.rank, stats[0], stats[1], stats[2], stats[3])), i));
  }

  /** The driver loop from line i: every entry it collects, or the first parse error. */
  function Entries(rs: seq<LineRole>, i: nat): (r: Result<seq<StatEntry>, Error>)
    requires i <= |rs|
    ensures r.Ok? ==> |r.value| <= |rs| - i
    decreases |rs| - i
  {
    if i == |rs| then Ok([])
    else if rs[i].HeaderLine? then
      match StatBlock(rs, i)
      case Err(e) => Err(e)
      case Ok((Some(e), j)) =>
        (match Entries(rs, j)
         case Err(x) => Err(x)
         case Ok(es) => Ok([e] + es))
      case Ok((None, _)) => Entries(rs, i + 1)
    else Entries(rs, i + 1)
  }

  /** Every collected entry has a title of the kind it records (so a star entry's title is all stars). */
  lemma {:induction false} EntriesTitled(rs: seq<LineRole>, i: nat)
    requires i <= |rs| && TitledHeaders(rs)
    ensures Entries(rs, i).Ok? ==> forall k {:trigger Entries(rs, i).value[k]} ::
      0 <= k < |Entries(rs, i).value| ==>
        LabelKind(Entries(rs, i).value[k].title) == Some(Entries(rs, i).value[k].kind)
    decreases |rs| - i
  {
    if i < |rs| {
      if rs[i].HeaderLine? {
        match StatBlock(rs, i)
        case Err(e) =>
        case Ok((Some(e), j)) =>
          EntriesTitled(rs, j);
        case Ok((None, _)) =>
          EntriesTitled(rs, i + 1);
      } else {
        EntriesTitled(rs, i + 1);
      }
    }
  }

  /** A stat block fails only with a parse_number error. */
  lemma {:induction false} GatherErrors(rs: seq<LineRole>, i: nat, vals: seq<Num>)
    requires i <= |rs| && |vals| <= 4 && NumberErrors(rs)
    ensures Gather(rs, i, vals).Err? ==> IsNumberError(Gather(rs, i, vals).error)
    decreases |rs| - i
  {
    if i < |rs| && |vals| < 4 {
      match rs[i]
      case HeaderLine(_) =>
      case ValueLine(_, Err(e)) =>
      case ValueLine(_, Ok(v)) => GatherErrors(rs, i + 1, vals + [v]);
      case OtherLine => GatherErrors(rs, i + 1, vals);
    }
  }

  /** The stat walk fails only with a parse_number error. */
  lemma {:induction false} EntriesErrors(rs: seq<LineRole>, i: nat)
    requires i <= |rs| && NumberErrors(rs)
    ensures Entries(rs, i).Err? ==> IsNumberError(Entries(rs, i).error)
    decreases |rs| - i
  {
    if i < |rs| {
      if rs[i].HeaderLine? {
        GatherErrors(rs, i + 1, []);
        match StatBlock(rs, i)
        case Err(e) =>
        case Ok((Some(e), j)) => EntriesErrors(rs, j);
        case Ok((None, _)) => EntriesErrors(rs, i + 1);
      } else {
        EntriesErrors(rs, i + 1);
      }
    }
  }

  /** Entries collected before the rest of the page is walked. */
  function Prepend(done: seq<StatEntry>, rest: Result<seq<StatEntry>, Error>): Result<seq<StatEntry>, Error> {
    match rest
    case Err(e) => Err(e)
    case Ok(es) => Ok(done + es)
  }

  /** A header whose block yields an entry: the entry joins those collected, the walk resumes after the block. */
  lemma {:induction false} EntriesTake(rs: seq<LineRole>, i: nat, done: seq<StatEntry>, e: StatEntry, next: nat)
    requires i < |rs| && rs[i].HeaderLine? && StatBlock(rs, i) == Ok((Some(e), next))
    ensures Prepend(done, Entries(rs, i)) == Prepend(done + [e], Entries(rs, next))
  {
    match Entries(rs, next) {
      case Err(x) =>
      case Ok(es) => assert done + [e] + es == done + ([e] + es);
    }
  }

  /** A line that is not a header, or a header whose block yields no entry: the walk moves one line on. */
  lemma {:induction false} EntriesSkip(rs: seq<LineRole>, i: nat, done: seq<StatEntry>)
    requires i < |rs| && (rs[i].HeaderLine? ==> StatBlock(rs, i).Ok? && StatBlock(rs, i).value.0.None?)
    ensures Prepend(done, Entries(rs, i)) == Prepend(done, Entries(rs, i + 1))
  {
  }

  /** The stat driver loop of parse_mei_page: a cursor over the page, moving one line on when no block starts there. */
  method CollectEntries(lines: seq<string>) returns (r: Result<seq<StatEntry>, Error>)
    ensures r == Entries(Roles(lines), 0)
  {
    ghost var rs := Roles(lines);
    var entries: seq<StatEntry> := [];
    var i := 0;
    match Entries(rs, 0) {
      case Err(x) =>
      case Ok(es) => assert [] + es == es;
    }
    while i < |lines|
      invariant i <= |lines|
      invariant Entries(rs, 0) == Prepend(entries, Entries(rs, i))
      decreases |lines| - i
    {
      assert rs[i] == Role(lines[i]);
      if IsHeader(lines[i]) {
        var block := ParseStatBlock(lines, i);
        if block.Err? {
          return Err(block.error);
        }
        var (entry, next) := block.value;
        if entry.Some? {
          EntriesTake(rs, i, entries, entry.value, next);
          entries := entries + [entry.value];
          i := next;
          continue;
        }
      }
      EntriesSkip(rs, i, entries);
      i := i + 1;
    }
    assert entries + [] == entries;
    return Ok(entries);
  }

  /** Lines that are not headers contribute nothing: the walk skips them. */
  lemma {:induction false} SkipNonHeaders(rs: seq<LineRole>, i: nat, k: nat)
    requires i <= k <= |rs|
    requires forall m :: i <= m < k ==> !rs[m].HeaderLine?
    ensures Entries(rs, i) == Entries(rs, k)
    decreases k - i
  {
    if i < k {
      SkipNonHeaders(rs, i + 1, k);
    }
  }

  /**
   * When a header's block comes back without an entry the driver moves on by one line,
   * not to the returned index; since the block's window holds no other header, both
   * choices yield the same entries.
   */
  lemma {:induction false} FailedBlockSkip(rs: seq<LineRole>, i: nat)
    requires i < |rs| && rs[i].HeaderLine?
    requires StatBlock(rs, i).Ok? && StatBlock(rs, i).value.0.None?
    ensures Entries(rs, i) == Entries(rs, StatBlock(rs, i).value.1)
  {
    StatBlockWindow(rs, i);
    WindowSpec(rs, i + 1, 4);
    SkipNonHeaders(rs, i + 1, StatBlock(rs, i).value.1);
  }
}
