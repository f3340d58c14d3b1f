/**
 * parse_mei_page: from a page's plain text and a car id to the car record, or to the
 * error the parser raises. The page text is split into normalised non-empty lines,
 * and each record field comes from its own scan of those lines.
 */
module Page {
  import opened Basics
  import opened Text
  import opened Numbers
  import opened Runs
  import opened Sums
  import opened Unlock
  import opened Stats
  import opened Aggregate
  import opened Upgrades

  /** The fuel-pump glyph. */
  const FUEL: char := '\U{26fd}'

  /** unlock_method: "bp" or "key". */
  datatype UnlockMethod = BpUnlock | KeyUnlock

  /** epic_importparts_amount: one amount per metric. */
  datatype EpicAmounts = EpicAmounts(topSpeed: nat, accel: nat, handling: nat, nitro: nat)

  /** The car record, field by field in the order parse_mei_page fills them. */
  datatype CarRecord = CarRecord(
    id: int,
    unlockMethod: Option<UnlockMethod>,
    carClass: string,
    name: string,
    maxStar: nat,
    fuel: Option<nat>,
    bpRequirements: seq<nat>,
    bpCumulative: seq<int>,
    bpAll: Option<nat>,
    epicAmounts: EpicAmounts,
    epicPrice: Num,
    stat: seq<StatRow>,
    upgradeCumulative: seq<int>,
    upgradePerStar: seq<int>,
    upgradeAll: Option<int>)

  // ----- class and name -----

  /** re.fullmatch(r"[DCBAS]", l) */
  predicate IsClassLine(l: string) {
    |l| == 1 && (l[0] == 'D' || l[0] == 'C' || l[0] == 'B' || l[0] == 'A' || l[0] == 'S')
  }

  /** The index of the first class line at or after i. */
  function ClassIndex(lines: seq<string>, i: nat): (r: Option<nat>)
    requires i <= |lines|
    ensures r.Some? ==> i <= r.value < |lines| && IsClassLine(lines[r.value])
    ensures r.Some? ==> forall m :: i <= m < r.value ==> !IsClassLine(lines[m])
    ensures r.None? ==> forall m :: i <= m < |lines| ==> !IsClassLine(lines[m])
    decreases |lines| - i
  {
    if i == |lines| then None
    else if IsClassLine(lines[i]) then Some(i)
    else ClassIndex(lines, i + 1)
  }

  /** The class scan: an index loop that stops at the first class line. */
  method FindClass(lines: seq<string>) returns (idx: Option<nat>)
    ensures idx == ClassIndex(lines, 0)
  {
    for i := 0 to |lines|
      invariant ClassIndex(lines, i) == ClassIndex(lines, 0)
    {
      if IsClassLine(lines[i]) {
        return Some(i);
      }
    }
    return None;
  }

  /** The class scan fails when there is no class line or it is the last line. */
  predicate ClassMissing(lines: seq<string>) {
    var ci := ClassIndex(lines, 0);
    ci.None? || ci.value + 1 >= |lines|
  }

  // ----- star count -----

  /** The index of the first line at or after i made of stars only (set(l) == {"⭐"}). */
  function StarLineIndex(lines: seq<string>, i: nat): (r: Option<nat>)
    requires i <= |lines|
    ensures r.Some? ==> i <= r.value < |lines| && AllStars(lines[r.value])
    ensures r.Some? ==> forall m :: i <= m < r.value ==> !AllStars(lines[m])
    ensures r.None? ==> forall m :: i <= m < |lines| ==> !AllStars(lines[m])
    decreases |lines| - i
  {
    if i == |lines| then None
    else if AllStars(lines[i]) then Some(i)
    else StarLineIndex(lines, i + 1)
  }

  // ----- fuel -----

  /** ⛽\s+(\d+)\s+fuels matches at p. */
  predicate FuelAt(s: string, p: nat) {
    && p < |s| && s[p] == FUEL
    && var q := RunEnd(s, p + 1, Spaces);
       && p + 1 < q && q < |s| && IsDigit(s[q])
       && var e := RunEnd(s, q, Digits);
          var f := RunEnd(s, e, Spaces);
          e < f && HasAt(s, f, "fuels")
  }

  /** The first position at or after i where the fuel pattern matches. */
  function FirstFuel(s: string, i: nat): (r: Option<nat>)
    requires i <= |s|
    ensures r.Some? ==> i <= r.value && FuelAt(s, r.value)
    ensures r.Some? ==> forall m :: i <= m < r.value ==> !FuelAt(s, m)
    ensures r.None? ==> forall m :: i <= m < |s| ==> !FuelAt(s, m)
    decreases |s| - i
  {
    if i == |s| then None else if FuelAt(s, i) then Some(i) else FirstFuel(s, i + 1)
  }

  /** int(group(1)) of the first fuel match in s, if any. */
  function FuelCount(s: string): (r: Option<nat>)
    ensures r.None? <==> forall m :: 0 <= m < |s| ==> !FuelAt(s, m)
  {
    match FirstFuel(s, 0)
    case Some(p) =>
      var q := RunEnd(s, p + 1, Spaces);
      Some(DigitsValue(s[q..RunEnd(s, q, Digits)]))
    case None => None
  }

  /** fuel: read from the first line starting with the fuel glyph, else absent. */
  function Fuel(lines: seq<string>): (r: Option<nat>)
    ensures r.Some? ==> exists k ::
      && 0 <= k < |lines| && StartsWith(lines[k], [FUEL]) && FuelCount(lines[k]) == r
      && (forall m :: 0 <= m < k ==> !StartsWith(lines[m], [FUEL]))
    ensures (forall k :: 0 <= k < |lines| ==> !StartsWith(lines[k], [FUEL])) ==> r.None?
  {
    match FirstWithPrefix(lines, [FUEL], 0)
    case Some(k) => FuelCount(lines[k])
    case None => None
  }

  /** The first line starting with the fuel glyph decides fuel: its count, or none. */
  lemma {:induction false} FuelFirst(lines: seq<string>, k: nat)
    requires k < |lines| && StartsWith(lines[k], [FUEL])
    requires forall m :: 0 <= m < k ==> !StartsWith(lines[m], [FUEL])
    ensures Fuel(lines) == FuelCount(lines[k])
  {
    FirstWithPrefixAt(lines, [FUEL], k);
  }

  /**
   * The fuel count is absent exactly when the pattern matches nowhere; otherwise it is the
   * digit run of the first match, found after the glyph and its whitespace and followed by
   * whitespace and the word "fuels".
   */
  lemma {:induction false} FuelCountSpec(s: string)
    ensures FuelCount(s).None? <==> forall m :: 0 <= m < |s| ==> !FuelAt(s, m)
    ensures FuelCount(s).Some? ==> exists p ::
      && 0 <= p < |s| && s[p] == FUEL && FuelAt(s, p)
      && (forall m :: 0 <= m < p ==> !FuelAt(s, m))
      && var q := RunEnd(s, p + 1, Spaces);
         var e := RunEnd(s, q, Digits);
         && p + 1 < q < e <= |s| && IsDigitRun(s[q..e])
         && e < RunEnd(s, e, Spaces) && HasAt(s, RunEnd(s, e, Spaces), "fuels")
         && FuelCount(s) == Some(DigitsValue(s[q..e]))
  {
    if FirstFuel(s, 0).Some? {
      var p := FirstFuel(s, 0).value;
      FuelMatch(s, p);
    }
  }

  /** At a match, the digits after the glyph's whitespace form a run. */
  lemma {:induction false} FuelMatch(s: string, p: nat)
    requires FuelAt(s, p)
    ensures var q := RunEnd(s, p + 1, Spaces);
      q < RunEnd(s, q, Digits) && IsDigitRun(s[q..RunEnd(s, q, Digits)])
  {
    var q := RunEnd(s, p + 1, Spaces);
    var e := RunEnd(s, q, Digits);
    RunEndSpec(s, q, Digits);
    assert forall k :: 0 <= k < e - q ==> s[q..e][k] == s[q + k];
  }

  // ----- blueprints -----

  /** The line after i, when there is one. */
  function NextLine(lines: seq<string>, i: nat): Option<string>
    requires i < |lines|
  {
    if i + 1 < |lines| then Some(lines[i + 1]) else None
  }

  /** Line i is a candidate and extract_bp_from_two_lines finds requirements on it. */
  predicate BpHit(lines: seq<string>, i: nat)
    requires i < |lines|
  {
    IsCandidate(lines[i]) && ExtractBp(lines[i], NextLine(lines, i)).Some?
  }

  /** The first blueprint hit at or after i. */
  function BpIndex(lines: seq<string>, i: nat): (r: Option<nat>)
    requires i <= |lines|
    ensures r.Some? ==> i <= r.value < |lines| && BpHit(lines, r.value)
    ensures r.Some? ==> forall m :: i <= m < r.value ==> !BpHit(lines, m)
    ensures r.None? ==> forall m :: i <= m < |lines| ==> !BpHit(lines, m)
    decreases |lines| - i
  {
    if i == |lines| then None
    else if BpHit(lines, i) then Some(i)
    else BpIndex(lines, i + 1)
  }

  /** What the blueprint scan leaves behind: bp_reqs, bp_total and uses_key. */
  datatype BpScan = BpScan(requirements: seq<nat>, total: Option<nat>, usesKey: bool)

  /**
   * The requirements and total of the first hit, and whether the key glyph occurs on
   * that line or the next; nothing found leaves no requirements, no total and no key.
   */
  function BpOf(lines: seq<string>): (r: BpScan)
    ensures r.requirements != [] ==> exists k ::
      && 0 <= k < |lines| && IsCandidate(lines[k])
      && Requirements(CleanRequirementLine(lines[k])) == Some(r.requirements)
    ensures r.usesKey ==> exists k :: 0 <= k < |lines| && KEY in lines[k]
  {
    match BpIndex(lines, 0)
    case Some(k) =>
      var info := ExtractBp(lines[k], NextLine(lines, k)).value;
      BpScan(info.requirements, info.total, KEY in lines[k] || (k + 1 < |lines| && KEY in lines[k + 1]))
    case None => BpScan([], None, false)
  }

  /**
   * The first hit decides the scan: its requirements and total, and the key exactly when
   * the key glyph is on the hit line or the line after it.
   */
  lemma {:induction false} BpOfFirstHit(lines: seq<string>, k: nat)
    requires k < |lines| && BpHit(lines, k)
    requires forall m :: 0 <= m < k ==> !BpHit(lines, m)
    ensures var info := ExtractBp(lines[k], NextLine(lines, k)).value;
      && BpOf(lines).requirements == info.requirements
      && BpOf(lines).total == info.total
      && (BpOf(lines).usesKey <==> KEY in lines[k] || (k + 1 < |lines| && KEY in lines[k + 1]))
  {
    BpFirstIndex(lines, k);
  }

  /** A hit with none before it is the one the scan stops at. */
  lemma {:induction false} BpFirstIndex(lines: seq<string>, k: nat)
    requires k < |lines| && BpHit(lines, k)
    requires forall m :: 0 <= m < k ==> !BpHit(lines, m)
    ensures BpIndex(lines, 0) == Some(k)
  {
    var j := BpIndex(lines, 0);
    assert j.Some? && j.value <= k;
  }

  /**
   * Every candidate line is a hit, so the scan is decided by the first candidate line:
   * bp_requirements and bp_all come from it and the line after it.
   */
  lemma {:induction false} BpOfFirstCandidate(lines: seq<string>, k: nat)
    requires k < |lines| && IsCandidate(lines[k])
    requires forall m :: 0 <= m < k ==> !IsCandidate(lines[m])
    ensures ExtractBp(lines[k], NextLine(lines, k)).Some?
    ensures var info := ExtractBp(lines[k], NextLine(lines, k)).value;
      && BpOf(lines).requirements == info.requirements
      && BpOf(lines).total == info.total
      && (BpOf(lines).usesKey <==> KEY in lines[k] || (k + 1 < |lines| && KEY in lines[k + 1]))
  {
    CandidateRequirements(lines[k]);
    BpOfFirstHit(lines, k);
  }

  /** The blueprint scan: an index loop that stops at the first line giving requirements. */
  method ScanBlueprints(lines: seq<string>) returns (r: BpScan)
    ensures r == BpOf(lines)
  {
    for i := 0 to |lines|
      invariant BpIndex(lines, i) == BpIndex(lines, 0)
    {
      var l := lines[i];
      if IsCandidate(l) {
        var next := if i + 1 < |lines| then Some(lines[i + 1]) else None;
        var extracted := ExtractBp(l, next);
        if extracted.Some? {
          var usesKey := KEY in l || (next.Some? && KEY in next.value);
          return BpScan(extracted.value.requirements, extracted.value.total, usesKey);
        }
      }
    }
    return BpScan([], None, false);
  }

  /** The scan finds either no requirements or at least two, and none exactly when no line is a hit. */
  lemma {:induction false} BpOfSpec(lines: seq<string>)
    ensures BpOf(lines).requirements == [] <==> forall m :: 0 <= m < |lines| ==> !BpHit(lines, m)
    ensures BpOf(lines).requirements != [] ==> |BpOf(lines).requirements| >= 2
    ensures BpOf(lines).requirements == [] ==> BpOf(lines).total.None? && !BpOf(lines).usesKey
  {
    match BpIndex(lines, 0)
    case Some(k) =>
      ExtractBpRequirements(lines[k], NextLine(lines, k));
    case None =>
  }

  // ----- epic parts -----

  /** The first position at or after i holding a digit. */
  function FirstDigit(s: string, i: nat): (r: Option<nat>)
    requires i <= |s|
    ensures r.Some? ==> i <= r.value < |s| && IsDigit(s[r.value])
    ensures r.Some? ==> forall m :: i <= m < r.value ==> !IsDigit(s[m])
    ensures r.None? ==> forall m :: i <= m < |s| ==> !IsDigit(s[m])
    decreases |s| - i
  {
    if i == |s| then None else if IsDigit(s[i]) then Some(i) else FirstDigit(s, i + 1)
  }

  /** int(re.search(r"(\d+)", s).group(1)) when s has a digit. */
  function FirstNumberIn(s: string): (r: Option<nat>)
    ensures r.None? <==> forall m :: 0 <= m < |s| ==> !IsDigit(s[m])
    ensures r.Some? ==> exists p, e ::
      && 0 <= p < e <= |s|
      && (forall m :: 0 <= m < p ==> !IsDigit(s[m]))
      && AllIn(s, p, e, Digits) && (e == |s| || !IsDigit(s[e]))
      && r.value == DigitsValue(s[p..e])
  {
    match FirstDigit(s, 0)
    case Some(p) =>
      RunEndSpec(s, p, Digits);
      Some(DigitsValue(s[p..RunEnd(s, p, Digits)]))
    case None => None
  }

  /** epic_per_stat and epic_price. */
  datatype Epics = Epics(perStat: nat, price: Num)

  /**
   * After the first "Epics:" line: the first number on the next line is the amount per
   * metric, and parse_number of the line after that is the price, a failure leaving 0;
   * either is 0 when its line is missing.
   */
  function EpicsOf(lines: seq<string>): (r: Epics)
    ensures r.perStat > 0 ==> exists k ::
      && 0 <= k && k + 1 < |lines| && StartsWith(lines[k], "Epics:")
      && FirstNumberIn(lines[k + 1]) == Some(r.perStat)
  {
    match FirstWithPrefix(lines, "Epics:", 0)
    case None => Epics(0, Int(0))
    case Some(k) =>
      var per := if k + 1 < |lines| && FirstNumberIn(lines[k + 1]).Some? then FirstNumberIn(lines[k + 1]).value else 0;
      var price := if k + 2 < |lines| && ParseNumber(lines[k + 2]).Ok? then ParseNumber(lines[k + 2]).value else Int(0);
      Epics(per, price)
  }

  /**
   * The first "Epics:" line decides the parts: the first number on the next line is the
   * amount per metric (0 without one), and a price that parses on the line after that is
   * the price.
   */
  lemma {:induction false} EpicsOfFirst(lines: seq<string>, k: nat)
    requires k < |lines| && StartsWith(lines[k], "Epics:")
    requires forall m :: 0 <= m < k ==> !StartsWith(lines[m], "Epics:")
    ensures k + 1 < |lines| && FirstNumberIn(lines[k + 1]).Some? ==>
      EpicsOf(lines).perStat == FirstNumberIn(lines[k + 1]).value
    ensures (k + 1 == |lines| || FirstNumberIn(lines[k + 1]).None?) ==> EpicsOf(lines).perStat == 0
    ensures k + 2 < |lines| && ParseNumber(lines[k + 2]).Ok? ==>
      EpicsOf(lines).price == ParseNumber(lines[k + 2]).value
  {
    FirstWithPrefixAt(lines, "Epics:", k);
  }

  /** The parts scan: an index loop that reads the two lines after the first "Epics:" line and stops. */
  method ReadEpics(lines: seq<string>) returns (e: Epics)
    ensures e == EpicsOf(lines)
  {
    var perStat := 0;
    var price := Int(0);
    for i := 0 to |lines|
      invariant FirstWithPrefix(lines, "Epics:", i) == FirstWithPrefix(lines, "Epics:", 0)
    {
      if StartsWith(lines[i], "Epics:") {
        if i + 1 < |lines| {
          var m := FirstNumberIn(lines[i + 1]);
          if m.Some? {
            perStat := m.value;
          }
        }
        if i + 2 < |lines| {
          var total := ParseNumber(lines[i + 2]);
          if total.Ok? {
            price := total.value;
          }
        }
        return Epics(perStat, price);
      }
    }
    return Epics(perStat, price);
  }

  /** The epic price never fails the page; without an "Epics:" line nothing is read. */
  lemma {:induction false} EpicsDefaults(lines: seq<string>)
    ensures FirstWithPrefix(lines, "Epics:", 0).None? ==> EpicsOf(lines) == Epics(0, Int(0))
    ensures var k := FirstWithPrefix(lines, "Epics:", 0);
      k.Some? && k.value + 2 < |lines| && ParseNumber(lines[k.value + 2]).Err? ==> EpicsOf(lines).price == Int(0)
    ensures var k := FirstWithPrefix(lines, "Epics:", 0);
      k.Some? && k.value + 2 >= |lines| ==> EpicsOf(lines).price == Int(0)
  {
    match FirstWithPrefix(lines, "Epics:", 0)
    case None =>
    case Some(k) =>
      assert EpicsOf(lines).price ==
        if k + 2 < |lines| && ParseNumber(lines[k + 2]).Ok? then ParseNumber(lines[k + 2]).value else Int(0);
  }

  // ----- the whole page -----

  /** What the scans of parse_mei_page find, each over all of the page's lines. */
  datatype Scans = Scans(
    classIdx: Option<nat>,
    starIdx: Option<nat>,
    fuel: Option<nat>,
    bp: BpScan,
    epics: Epics,
    entries: Result<seq<StatEntry>, Error>,
    ladder: Result<seq<int>, Error>,
    all: Result<Option<int>, Error>)

  function ScansOf(lines: seq<string>): Scans {
    Scans(ClassIndex(lines, 0), StarLineIndex(lines, 0), Fuel(lines), BpOf(lines), EpicsOf(lines),
          Entries(Roles(lines), 0), UpgradeCumulative(lines), UpgradeAll(lines))
  }

  /** What each scan guarantees on its own. */
  predicate ScansFit(lines: seq<string>, s: Scans) {
    && (s.classIdx.Some? ==> s.classIdx.value < |lines| && IsClassLine(lines[s.classIdx.value]))
    && (s.starIdx.Some? ==> s.starIdx.value < |lines| && AllStars(lines[s.starIdx.value]))
    && (s.bp.requirements == [] || |s.bp.requirements| >= 2)
    && (s.bp.requirements == [] ==> s.bp.total.None? && !s.bp.usesKey)
    && (s.entries.Err? ==> IsNumberError(s.entries.error))
    && (s.ladder.Err? ==> IsNumberError(s.ladder.error))
    && (s.ladder.Ok? ==> |s.ladder.value| <= StarLines(Steps(lines), 0))
    && (s.ladder.Ok? ==> forall k :: 0 <= k < |s.ladder.value| ==> s.ladder.value[k] >= 0)
    && (s.all.Err? ==> IsNumberError(s.all.error))
    && (s.all.Ok? && s.all.value.Some? ==> s.all.value.value >= 0)
  }

  /** The page's scans meet their guarantees. */
  lemma {:induction false} ScansOfFit(lines: seq<string>)
    ensures ScansFit(lines, ScansOf(lines))
  {
    BpOfSpec(lines);
    RolesWellFormed(lines);
    EntriesErrors(Roles(lines), 0);
    UpgradeTotalsBounds(lines);
  }

  /**
   * parse_mei_page once the scans are done. The three errors it raises itself come in
   * order: no usable class line, then no star line, then no stat entry; a number that
   * fails to parse in a stat block, an upgrade total or the "Total:" line fails the
   * page too.
   */
  function Assemble(lines: seq<string>, carId: int, s: Scans): (r: Result<CarRecord, Error>)
    requires ScansFit(lines, s)
    ensures r.Ok? ==> var a := r.value.epicAmounts;
      a.topSpeed == a.accel == a.handling == a.nitro == s.epics.perStat
  {
    if s.classIdx.None? || s.classIdx.value + 1 >= |lines| then Err(MissingClass(carId))
    else if s.starIdx.None? then Err(MissingStars(carId))
    else if s.entries.Err? then Err(s.entries.error)
    else if s.entries.value == [] then Err(MissingStats(carId))
    else if s.ladder.Err? then Err(s.ladder.error)
    else if s.all.Err? then Err(s.all.error)
    else Ok(Record(lines, carId, s))
  }

  /** The record parse_mei_page fills in once every check has passed. */
  function Record(lines: seq<string>, carId: int, s: Scans): (r: CarRecord)
    requires ScansFit(lines, s)
    requires s.classIdx.Some? && s.classIdx.value + 1 < |lines| && s.starIdx.Some?
    requires s.entries.Ok? && s.ladder.Ok? && s.all.Ok?
    ensures IsClassLine(r.carClass) && r.maxStar >= 1
    ensures r.unlockMethod.None? <==> r.bpRequirements == []
  {
    var ci := s.classIdx.value;
    var es := s.entries.value;
    var maxStar := |lines[s.starIdx.value]|;
    var per := s.epics.perStat;
    var name := Strip(lines[ci + 1]);
    var unlock := if s.bp.requirements == [] then None
      else Some(if s.bp.usesKey then KeyUnlock else BpUnlock);
    CarRecord(
      carId, unlock, lines[ci], name, maxStar, s.fuel,
      s.bp.requirements, RunningSums(s.bp.requirements), s.bp.total,
      EpicAmounts(per, per, per, per), s.epics.price,
      StatList(FirstOfKind(es, Stock), BestMap(es), FirstOfKind(es, MaxWoEpics),
               FirstOfKind(es, Gold), maxStar, per > 0),
      s.ladder.value, Deltas(s.ladder.value), s.all.value)
  }

  /** The page's own errors: each is raised exactly when its check is the first to fail. */
  lemma {:induction false} AssembleErrors(lines: seq<string>, carId: int, s: Scans)
    requires ScansFit(lines, s)
    ensures Assemble(lines, carId, s) == Err(MissingClass(carId)) <==>
      s.classIdx.None? || s.classIdx.value + 1 >= |lines|
    ensures Assemble(lines, carId, s) == Err(MissingStars(carId)) <==>
      !(s.classIdx.None? || s.classIdx.value + 1 >= |lines|) && s.starIdx.None?
    ensures Assemble(lines, carId, s) == Err(MissingStats(carId)) <==>
      !(s.classIdx.None? || s.classIdx.value + 1 >= |lines|) && s.starIdx.Some? && s.entries == Ok([])
    ensures Assemble(lines, carId, s).Err? ==>
      var e := Assemble(lines, carId, s).error;
      e == MissingClass(carId) || e == MissingStars(carId) || e == MissingStats(carId) || IsNumberError(e)
  {
  }

  /**
   * A parsed record: the class line is one of D, C, B, A, S; the star count is positive;
   * the cumulative blueprint list and the requirements are each other's running sums
   * and differences, as are upgrade_cumulative and upgrade_per_star; the unlock method
   * is absent exactly when there are no requirements and is "key" exactly when the key
   * glyph was seen; the stat list is ordered; every upgrade figure is non-negative.
   */
  lemma {:induction false} AssembleRecord(lines: seq<string>, carId: int, s: Scans)
    requires ScansFit(lines, s) && Assemble(lines, carId, s).Ok?
    ensures var c := Assemble(lines, carId, s).value;
      && c.id == carId
      && IsClassLine(c.carClass) && c.maxStar >= 1
      && Deltas(c.bpCumulative) == c.bpRequirements
      && (c.bpRequirements == [] || |c.bpRequirements| >= 2)
      && (c.unlockMethod.None? <==> c.bpRequirements == [])
      && (c.unlockMethod == Some(KeyUnlock) <==> c.bpRequirements != [] && s.bp.usesKey)
      && Sorted(c.stat)
      && RunningSums(c.upgradePerStar) == c.upgradeCumulative
      && |c.upgradeCumulative| <= StarLines(Steps(lines), 0)
      && (forall k :: 0 <= k < |c.upgradeCumulative| ==> c.upgradeCumulative[k] >= 0)
      && (c.upgradeAll.Some? ==> c.upgradeAll.value >= 0)
  {
    var c := Assemble(lines, carId, s).value;
    var es := s.entries.value;
    DeltasOfRunningSums(s.bp.requirements);
    StatListSorted(FirstOfKind(es, Stock), BestMap(es), FirstOfKind(es, MaxWoEpics),
                   FirstOfKind(es, Gold), c.maxStar, s.epics.perStat > 0);
    RunningSumsOfDeltas(s.ladder.value);
  }

  /**
   * Where a parsed record's fields come from: the class is the class line, the name is
   * the next line stripped, max_star is the length of the star line, and fuel, the
   * blueprint figures, the epic price and the upgrade figures are those of their scans.
   */
  lemma {:induction false} AssembleFields(lines: seq<string>, carId: int, s: Scans)
    requires ScansFit(lines, s) && Assemble(lines, carId, s).Ok?
    ensures s.classIdx.Some? && s.classIdx.value + 1 < |lines| && s.starIdx.Some?
    ensures var c := Assemble(lines, carId, s).value;
      && c.carClass == lines[s.classIdx.value]
      && c.name == Strip(lines[s.classIdx.value + 1])
      && c.maxStar == |lines[s.starIdx.value]|
      && c.fuel == s.fuel
      && c.bpRequirements == s.bp.requirements && c.bpAll == s.bp.total
      && c.epicPrice == s.epics.price
      && s.ladder.Ok? && c.upgradeCumulative == s.ladder.value
      && s.all.Ok? && c.upgradeAll == s.all.value
  {
    assert Assemble(lines, carId, s) == Ok(Record(lines, carId, s));
    assert Record(lines, carId, s).name == Strip(lines[s.classIdx.value + 1]);
  }

  /**
   * The `stat` list of a parsed record is the one built from the page's stat entries: the
   * first stock, max-w/o-epics and gold entries, the kept star entries, max_star and
   * whether the car has epic parts.
   */
  lemma {:induction false} AssembleStat(lines: seq<string>, carId: int, s: Scans)
    requires ScansFit(lines, s) && Assemble(lines, carId, s).Ok?
    ensures s.entries.Ok? && s.starIdx.Some?
    ensures var es := s.entries.value;
      Assemble(lines, carId, s).value.stat ==
        StatList(FirstOfKind(es, Stock), BestMap(es), FirstOfKind(es, MaxWoEpics),
                 FirstOfKind(es, Gold), |lines[s.starIdx.value]|, s.epics.perStat > 0)
  {
    assert Assemble(lines, carId, s) == Ok(Record(lines, carId, s));
  }

  /**
   * A record parsed from a page, stated on the page's lines: the class is the first class
   * line, the name is the line after it, stripped, and max_star is the length of the
   * first line of stars.
   */
  lemma {:induction false} PageRecordHead(lines: seq<string>, carId: int)
    ensures ScansFit(lines, ScansOf(lines))
    ensures Assemble(lines, carId, ScansOf(lines)).Ok? ==>
      && ClassIndex(lines, 0).Some? && ClassIndex(lines, 0).value + 1 < |lines|
      && StarLineIndex(lines, 0).Some?
      && var c := Assemble(lines, carId, ScansOf(lines)).value;
         && c.carClass == lines[ClassIndex(lines, 0).value]
         && c.name == Strip(lines[ClassIndex(lines, 0).value + 1])
         && c.maxStar == |lines[StarLineIndex(lines, 0).value]|
  {
    ScansOfFit(lines);
    var s := ScansOf(lines);
    assert s.classIdx == ClassIndex(lines, 0) && s.starIdx == StarLineIndex(lines, 0);
    if Assemble(lines, carId, s).Ok? {
      AssembleFields(lines, carId, s);
      assert Assemble(lines, carId, s).value.name == Strip(lines[ClassIndex(lines, 0).value + 1]);
    }
  }

  /**
   * The other fields of a parsed record come from their scans, each of which reads the
   * first line it looks for: fuel, the blueprint requirements and total, the unlock method
   * ("key" exactly when the blueprint scan saw the key glyph), the epic price and
   * upgrade_cumulative.
   */
  lemma {:induction false} PageRecordScans(lines: seq<string>, carId: int)
    ensures ScansFit(lines, ScansOf(lines))
    ensures Assemble(lines, carId, ScansOf(lines)).Ok? ==>
      var c := Assemble(lines, carId, ScansOf(lines)).value;
      && c.fuel == Fuel(lines)
      && c.bpRequirements == BpOf(lines).requirements && c.bpAll == BpOf(lines).total
      && (c.unlockMethod == Some(KeyUnlock) <==> c.bpRequirements != [] && BpOf(lines).usesKey)
      && c.epicPrice == EpicsOf(lines).price
      && UpgradeCumulative(lines) == Ok(c.upgradeCumulative)
  {
    ScansOfFit(lines);
    if Assemble(lines, carId, ScansOf(lines)).Ok? {
      AssembleFields(lines, carId, ScansOf(lines));
      AssembleRecord(lines, carId, ScansOf(lines));
    }
  }

  /**
   * The `stat` list of a record parsed from a page is built from the entries the stat
   * walk collects over the page's lines, the first line of stars and the parts scan.
   */
  lemma {:induction false} PageRecordStat(lines: seq<string>, carId: int)
    ensures ScansFit(lines, ScansOf(lines))
    ensures Assemble(lines, carId, ScansOf(lines)).Ok? ==>
      && Entries(Roles(lines), 0).Ok? && StarLineIndex(lines, 0).Some?
      && var es := Entries(Roles(lines), 0).value;
         Assemble(lines, carId, ScansOf(lines)).value.stat ==
           StatList(FirstOfKind(es, Stock), BestMap(es), FirstOfKind(es, MaxWoEpics),
                    FirstOfKind(es, Gold), |lines[StarLineIndex(lines, 0).value]|, EpicsOf(lines).perStat > 0)
  {
    ScansOfFit(lines);
    var s := ScansOf(lines);
    assert s.entries == Entries(Roles(lines), 0) && s.starIdx == StarLineIndex(lines, 0);
    assert s.epics == EpicsOf(lines);
    if Assemble(lines, carId, s).Ok? {
      AssembleStat(lines, carId, s);
    }
  }

  /** The page's own errors over its lines, stated with the scans that decide them. */
  lemma {:induction false} PageErrors(lines: seq<string>, carId: int)
    ensures ScansFit(lines, ScansOf(lines))
    ensures Assemble(lines, carId, ScansOf(lines)) == Err(MissingClass(carId)) <==> ClassMissing(lines)
    ensures Assemble(lines, carId, ScansOf(lines)) == Err(MissingStars(carId)) <==>
      !ClassMissing(lines) && StarLineIndex(lines, 0).None?
    ensures Assemble(lines, carId, ScansOf(lines)) == Err(MissingStats(carId)) <==>
      !ClassMissing(lines) && StarLineIndex(lines, 0).Some? && Entries(Roles(lines), 0) == Ok([])
  {
    ScansOfFit(lines);
    AssembleErrors(lines, carId, ScansOf(lines));
  }

  /** parse_mei_page: split the text into lines, then run each scan in turn. */
  method ParsePage(text: string, carId: int) returns (r: Result<CarRecord, Error>)
    ensures ScansFit(PageLines(text), ScansOf(PageLines(text)))
    ensures r == Assemble(PageLines(text), carId, ScansOf(PageLines(text)))
  {
    var lines := PageLines(text);
    ScansOfFit(lines);
    r := ParseLines(lines, carId);
  }

  /** The body of parse_mei_page after the text is split: each scan, then each check in turn. */
  method ParseLines(lines: seq<string>, carId: int) returns (r: Result<CarRecord, Error>)
    requires ScansFit(lines, ScansOf(lines))
    ensures r == Assemble(lines, carId, ScansOf(lines))
  {

    var ci := FindClass(lines);
    if ci.None? || ci.value + 1 >= |lines| {
      return Err(MissingClass(carId));
    }
    var carClass := lines[ci.value];
    var name := Strip(lines[ci.value + 1]);

    var si := StarLineIndex(lines, 0);
    if si.None? {
      return Err(MissingStars(carId));
    }
    var maxStar := |lines[si.value]|;

    var fuel := Fuel(lines);

    var bp := ScanBlueprints(lines);
    var unlock: Option<UnlockMethod> := None;
    var cumulative: seq<int> := [];
    if bp.requirements != [] {
      cumulative := RunningSums(bp.requirements);
      unlock := Some(if bp.usesKey then KeyUnlock else BpUnlock);
    }

    var epics := ReadEpics(lines);

    var entries := CollectEntries(lines);
    if entries.Err? {
      return Err(entries.error);
    }
    if entries.value == [] {
      return Err(MissingStats(carId));
    }
    var rows := BuildStatList(entries.value, maxStar, epics.perStat);

    var ladder := UpgradeTotals(lines);
    if ladder.Err? {
      return Err(ladder.error);
    }
    var all := UpgradeAll(lines);
    if all.Err? {
      return Err(all.error);
    }
    var perStar := PerStarDeltas(ladder.value);

    var amounts := EpicAmounts(epics.perStat, epics.perStat, epics.perStat, epics.perStat);
    return Ok(CarRecord(
      carId, unlock, carClass, name, maxStar, fuel,
      bp.requirements, cumulative, bp.total,
      amounts, epics.price, rows,
      ladder.value, perStar, all.value));
  }
}
