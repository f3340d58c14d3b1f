/**
 * From the collected stat entries to the record's `stat` list: the first stock, gold
 * and max-w/o-epics entries, the best-ranked star entry per star count, and the
 * ordered list of rows (stock at one star, full rows below the top star, then the top
 * star without and with epics).
 */
module Aggregate {
  import opened Basics
  import opened Numbers
  import opened Stats

  /** The index of the first entry of the given kind at or after i. */
  function FirstKindIndex(es: seq<StatEntry>, kind: Kind, i: nat): (r: Option<nat>)
    requires i <= |es|
    ensures r.Some? ==> i <= r.value < |es| && es[r.value].kind == kind
    ensures r.Some? ==> forall m :: i <= m < r.value ==> es[m].kind != kind
    ensures r.None? ==> forall m :: i <= m < |es| ==> es[m].kind != kind
    decreases |es| - i
  {
    if i == |es| then None else if es[i].kind == kind then Some(i) else FirstKindIndex(es, kind, i + 1)
  }

  /** next((e for e in entries if e.kind == kind), None) */
  function FirstOfKind(es: seq<StatEntry>, kind: Kind): Option<StatEntry> {
    match FirstKindIndex(es, kind, 0)
    case Some(k) => Some(es[k])
    case None => None
  }

  /** e is a star entry whose title holds sc stars. */
  predicate StarOf(e: StatEntry, sc: nat) {
    e.kind == Star && |e.title| == sc
  }

  /**
   * Entry k is the one kept for star count sc: no entry for sc ranks higher, and every
   * earlier one ranks strictly lower, so among equal ranks the earliest is kept.
   */
  predicate Kept(es: seq<StatEntry>, sc: nat, k: nat) {
    && k < |es| && StarOf(es[k], sc)
    && (forall m :: 0 <= m < |es| && StarOf(es[m], sc) ==> es[m].rank <= es[k].rank)
    && (forall m :: 0 <= m < k && StarOf(es[m], sc) ==> es[m].rank < es[k].rank)
  }

  /** best_by_star after the loop has seen the entries es. */
  function BestMap(es: seq<StatEntry>): (r: map<nat, StatEntry>)
    ensures forall sc :: sc in r ==> StarOf(r[sc], sc) && r[sc] in es
  {
    if es == [] then map[]
    else
      var m := BestMap(es[..|es| - 1]);
      var e := es[|es| - 1];
      if e.kind == Star && (|e.title| !in m || e.rank > m[|e.title|].rank) then m[|e.title| := e] else m
  }

  /** best_by_star: one pass over the entries, replacing the kept entry only on a strictly higher rank. */
  method BestByStar(es: seq<StatEntry>) returns (best: map<nat, StatEntry>)
    ensures best == BestMap(es)
  {
    best := map[];
    for i := 0 to |es|
      invariant best == BestMap(es[..i])
    {
      assert es[..i + 1][..i] == es[..i];
      var e := es[i];
      if e.kind == Star {
        var sc := |e.title|;
        if sc !in best || e.rank > best[sc].rank {
          best := best[sc := e];
        }
      }
    }
    assert es[..|es|] == es;
  }

  /** A kept entry stays kept when a later entry does not beat it. */
  lemma {:induction false} KeptExtend(p: seq<StatEntry>, e: StatEntry, sc: nat, k: nat)
    requires Kept(p, sc, k) && (!StarOf(e, sc) || e.rank <= p[k].rank)
    ensures Kept(p + [e], sc, k)
  {
    var q := p + [e];
    forall m | 0 <= m < |q| && StarOf(q[m], sc)
      ensures q[m].rank <= q[k].rank
    {
      if m < |p| {
        assert q[m] == p[m];
      }
    }
  }

  /** A later entry that beats every earlier one for its star count is kept. */
  lemma {:induction false} KeptNew(p: seq<StatEntry>, e: StatEntry, sc: nat)
    requires StarOf(e, sc)
    requires forall m :: 0 <= m < |p| && StarOf(p[m], sc) ==> p[m].rank < e.rank
    ensures Kept(p + [e], sc, |p|)
  {
    var q := p + [e];
    forall m | 0 <= m < |q| && StarOf(q[m], sc)
      ensures q[m].rank <= q[|p|].rank
    {
      if m < |p| {
        assert q[m] == p[m];
      }
    }
    forall m | 0 <= m < |p| && StarOf(q[m], sc)
      ensures q[m].rank < q[|p|].rank
    {
      assert q[m] == p[m];
    }
  }

  /** best_by_star has a key for exactly the star counts some star entry has. */
  lemma {:induction false} BestMapDomain(es: seq<StatEntry>)
    ensures forall sc :: sc in BestMap(es) <==> exists k :: 0 <= k < |es| && StarOf(es[k], sc)
  {
    if es != [] {
      var p := es[..|es| - 1];
      var e := es[|es| - 1];
      BestMapDomain(p);
      var m := BestMap(p);
      forall sc | true
        ensures sc in BestMap(es) <==> exists k :: 0 <= k < |es| && StarOf(es[k], sc)
      {
        if sc in BestMap(es) {
          if sc in m {
            var k :| 0 <= k < |p| && StarOf(p[k], sc);
            assert es[k] == p[k];
          } else {
            assert StarOf(es[|es| - 1], sc);
          }
        }
        if k :| 0 <= k < |es| && StarOf(es[k], sc) {
          if k < |p| {
            assert StarOf(p[k], sc);
          }
        }
      }
    }
  }

  /** A star entry that beats every earlier one for its count replaces the kept entry. */
  lemma {:induction false} StepReplace(p: seq<StatEntry>, e: StatEntry, sc: nat)
    requires StarOf(e, sc)
    requires forall j :: 0 <= j < |p| && StarOf(p[j], sc) ==> p[j].rank < e.rank
    requires sc !in BestMap(p) || e.rank > BestMap(p)[sc].rank
    ensures Kept(p + [e], sc, |p|) && BestMap(p + [e])[sc] == (p + [e])[|p|]
  {
    assert (p + [e])[..|p|] == p;
    KeptNew(p, e, sc);
  }

  /** Any other entry leaves the kept entry of sc where it is. */
  lemma {:induction false} StepKeep(p: seq<StatEntry>, e: StatEntry, sc: nat, k: nat)
    requires Kept(p, sc, k) && sc in BestMap(p) && BestMap(p)[sc] == p[k]
    requires !StarOf(e, sc) || e.rank <= p[k].rank
    ensures Kept(p + [e], sc, k) && BestMap(p + [e])[sc] == (p + [e])[k]
  {
    assert (p + [e])[..|p|] == p;
    KeptExtend(p, e, sc, k);
  }

  /** Under each key best_by_star holds the kept entry: highest rank, earliest among equals. */
  lemma {:induction false} BestMapKept(es: seq<StatEntry>)
    ensures forall sc :: sc in BestMap(es) ==> exists k: nat :: Kept(es, sc, k) && BestMap(es)[sc] == es[k]
  {
    if es != [] {
      var p := es[..|es| - 1];
      var e := es[|es| - 1];
      assert es == p + [e];
      BestMapDomain(p);
      BestMapKept(p);
      forall sc | sc in BestMap(es)
        ensures exists k: nat :: Kept(es, sc, k) && BestMap(es)[sc] == es[k]
      {
        var m := BestMap(p);
        if StarOf(e, sc) && (sc !in m || e.rank > m[sc].rank) {
          if sc in m {
            var k: nat :| Kept(p, sc, k) && BestMap(p)[sc] == p[k];
          }
          StepReplace(p, e, sc);
        } else {
          var k: nat :| Kept(p, sc, k) && BestMap(p)[sc] == p[k];
          StepKeep(p, e, sc, k);
        }
      }
    }
  }

  /** The kept entry for a star count is unique. */
  lemma {:induction false} KeptUnique(es: seq<StatEntry>, sc: nat, k1: nat, k2: nat)
    requires Kept(es, sc, k1) && Kept(es, sc, k2)
    ensures k1 == k2
  {
  }

  /** The `type` of a stat row. */
  datatype RowType = StockRow | FullRow | MaxWoEpicsRow | GoldRow

  /** One element of the record's `stat` list. */
  datatype StatRow = StatRow(
    star: nat, rowType: RowType, rank: nat,
    topSpeed: Num, accel: Num, handling: Num, nitro: Num)

  function RowOf(star: nat, t: RowType, e: StatEntry): StatRow {
    StatRow(star, t, e.rank, e.topSpeed, e.accel, e.handling, e.nitro)
  }

  /** A row for the entry when there is one. */
  function OptRow(star: nat, t: RowType, e: Option<StatEntry>): seq<StatRow> {
    if e.Some? then [RowOf(star, t, e.value)] else []
  }

  /** The full rows for star counts 1 .. hi - 1 that have a kept entry, in ascending order. */
  function FullRows(best: map<nat, StatEntry>, hi: nat): seq<StatRow> {
    if hi <= 1 then []
    else FullRows(best, hi - 1) + (if hi - 1 in best then [RowOf(hi - 1, FullRow, best[hi - 1])] else [])
  }

  /** The `stat` list built from its four sources. */
  function StatList(
    stock: Option<StatEntry>, best: map<nat, StatEntry>, maxWo: Option<StatEntry>,
    gold: Option<StatEntry>, maxStar: nat, hasEpic: bool): seq<StatRow>
  {
    OptRow(1, StockRow, stock) + FullRows(best, maxStar)
      + (if hasEpic then OptRow(maxStar, MaxWoEpicsRow, maxWo) else [])
      + OptRow(maxStar, GoldRow, gold)
  }

  /** Every row is for a star count between lo and hi. */
  predicate StarsWithin(rows: seq<StatRow>, lo: nat, hi: nat) {
    forall k :: 0 <= k < |rows| ==> lo <= rows[k].star <= hi
  }

  lemma {:induction false} StarsWithinConcat(a: seq<StatRow>, b: seq<StatRow>, lo: nat, hi: nat)
    requires StarsWithin(a, lo, hi) && StarsWithin(b, lo, hi)
    ensures StarsWithin(a + b, lo, hi)
  {
    forall k | 0 <= k < |a + b|
      ensures lo <= (a + b)[k].star <= hi
    {
      if k >= |a| {
        assert (a + b)[k] == b[k - |a|];
      }
    }
  }

  /** Every row of the `stat` list is for a star count between one and the car's maximum. */
  lemma {:induction false} StatListStars(
    stock: Option<StatEntry>, best: map<nat, StatEntry>, maxWo: Option<StatEntry>,
    gold: Option<StatEntry>, maxStar: nat, hasEpic: bool)
    requires maxStar >= 1
    ensures StarsWithin(StatList(stock, best, maxWo, gold, maxStar, hasEpic), 1, maxStar)
  {
    FullRowsSpec(best, maxStar);
    var a := OptRow(1, StockRow, stock);
    var b := FullRows(best, maxStar);
    var c := if hasEpic then OptRow(maxStar, MaxWoEpicsRow, maxWo) else [];
    var d := OptRow(maxStar, GoldRow, gold);
    assert StarsWithin(b, 1, maxStar);
    StarsWithinConcat(a, b, 1, maxStar);
    StarsWithinConcat(a + b, c, 1, maxStar);
    StarsWithinConcat(a + b + c, d, 1, maxStar);
  }

  /** The rows of the `stat` list, as parse_mei_page assembles them from the entries. */
  method BuildStatList(es: seq<StatEntry>, maxStar: nat, epicPerStat: nat) returns (rows: seq<StatRow>)
    ensures rows == StatList(FirstOfKind(es, Stock), BestMap(es), FirstOfKind(es, MaxWoEpics),
                             FirstOfKind(es, Gold), maxStar, epicPerStat > 0)
  {
    var stock := FirstOfKind(es, Stock);
    var gold := FirstOfKind(es, Gold);
    var maxWo := FirstOfKind(es, MaxWoEpics);
    var best := BestByStar(es);
    rows := [];
    if stock.Some? {
      rows := rows + [RowOf(1, StockRow, stock.value)];
    }
    var head := rows;
    var star := 1;
    while star < maxStar
      invariant 1 <= star && (star <= maxStar || star == 1)
      invariant rows == head + FullRows(best, star)
    {
      if star in best {
        rows := rows + [RowOf(star, FullRow, best[star])];
      }
      star := star + 1;
    }
    if maxStar < 1 {
      assert FullRows(best, maxStar) == [] == FullRows(best, star);
    }
    ghost var h := rows;
    assert h == OptRow(1, StockRow, stock) + FullRows(best, maxStar);
    var w: seq<StatRow> := [];
    if epicPerStat > 0 && maxWo.Some? {
      w := [RowOf(maxStar, MaxWoEpicsRow, maxWo.value)];
    }
    assert w == if epicPerStat > 0 then OptRow(maxStar, MaxWoEpicsRow, maxWo) else [];
    var g: seq<StatRow> := [];
    if gold.Some? {
      g := [RowOf(maxStar, GoldRow, gold.value)];
    }
    assert g == OptRow(maxStar, GoldRow, gold);
    rows := rows + w + g;
  }

  function TypeOrder(t: RowType): nat {
    match t
    case StockRow => 0
    case FullRow => 1
    case MaxWoEpicsRow => 2
    case GoldRow => 3
  }

  /** a comes before b: a lower star, or the same star and an earlier type. */
  predicate Before(a: StatRow, b: StatRow) {
    a.star < b.star || (a.star == b.star && TypeOrder(a.rowType) < TypeOrder(b.rowType))
  }

  predicate Sorted(rows: seq<StatRow>) {
    forall i, j :: 0 <= i < j < |rows| ==> Before(rows[i], rows[j])
  }

  lemma {:induction false} SortedConcat(a: seq<StatRow>, b: seq<StatRow>)
    requires Sorted(a) && Sorted(b)
    requires forall i, j :: 0 <= i < |a| && 0 <= j < |b| ==> Before(a[i], b[j])
    ensures Sorted(a + b)
  {
    var c := a + b;
    forall i, j | 0 <= i < j < |c|
      ensures Before(c[i], c[j])
    {
      if j < |a| {
        assert c[i] == a[i] && c[j] == a[j];
      } else if i >= |a| {
        assert c[i] == b[i - |a|] && c[j] == b[j - |a|];
      } else {
        assert c[i] == a[i] && c[j] == b[j - |a|];
      }
    }
  }

  /** The full rows are the kept entries for the star counts below hi, ascending and one per count. */
  lemma {:induction false} FullRowsSpec(best: map<nat, StatEntry>, hi: nat)
    ensures Sorted(FullRows(best, hi))
    ensures forall k :: 0 <= k < |FullRows(best, hi)| ==>
      var r := FullRows(best, hi)[k];
      1 <= r.star < hi && r.star in best && r == RowOf(r.star, FullRow, best[r.star])
    ensures forall s :: 1 <= s < hi && s in best ==> RowOf(s, FullRow, best[s]) in FullRows(best, hi)
  {
    if hi > 1 {
      FullRowsSpec(best, hi - 1);
      var p := FullRows(best, hi - 1);
      if hi - 1 in best {
        var last := [RowOf(hi - 1, FullRow, best[hi - 1])];
        SortedConcat(p, last);
      } else {
        assert FullRows(best, hi) == p + [];
      }
    }
  }

  /** Every row comes before the (star, order) slot: a lower star, or the same star and a lower type. */
  predicate Below(rows: seq<StatRow>, star: nat, order: nat) {
    forall k :: 0 <= k < |rows| ==>
      rows[k].star < star || (rows[k].star == star && TypeOrder(rows[k].rowType) < order)
  }

  /** Appending an optional row of type t at star keeps the list ordered and fills that slot. */
  lemma {:induction false} AppendOptRow(rows: seq<StatRow>, star: nat, t: RowType, e: Option<StatEntry>)
    requires Sorted(rows) && Below(rows, star, TypeOrder(t))
    ensures Sorted(rows + OptRow(star, t, e)) && Below(rows + OptRow(star, t, e), star, TypeOrder(t) + 1)
  {
    var o := OptRow(star, t, e);
    var c := rows + o;
    SortedConcat(rows, o);
    forall k | 0 <= k < |c|
      ensures c[k].star < star || (c[k].star == star && TypeOrder(c[k].rowType) < TypeOrder(t) + 1)
    {
      if k < |rows| {
        assert c[k] == rows[k];
      }
    }
  }

  /** The stock row and the full rows come before the top star's max w/o epics slot. */
  lemma {:induction false} HeadRowsSorted(stock: Option<StatEntry>, best: map<nat, StatEntry>, maxStar: nat)
    requires maxStar >= 1
    ensures var h := OptRow(1, StockRow, stock) + FullRows(best, maxStar);
      Sorted(h) && Below(h, maxStar, 2)
  {
    var a := OptRow(1, StockRow, stock);
    var f := FullRows(best, maxStar);
    var h := a + f;
    FullRowsSpec(best, maxStar);
    SortedConcat(a, f);
    forall k | 0 <= k < |h|
      ensures h[k].star < maxStar || (h[k].star == maxStar && TypeOrder(h[k].rowType) < 2)
    {
      if k >= |a| {
        assert h[k] == f[k - |a|];
      }
    }
  }

  /**
   * The `stat` list is ordered by star count and then by type (stock, full, max w/o
   * epics, gold), provided the top star count is at least one.
   */
  lemma {:induction false} StatListSorted(
    stock: Option<StatEntry>, best: map<nat, StatEntry>, maxWo: Option<StatEntry>,
    gold: Option<StatEntry>, maxStar: nat, hasEpic: bool)
    requires maxStar >= 1
    ensures Sorted(StatList(stock, best, maxWo, gold, maxStar, hasEpic))
  {
    var h := OptRow(1, StockRow, stock) + FullRows(best, maxStar);
    HeadRowsSorted(stock, best, maxStar);
    var w := if hasEpic then OptRow(maxStar, MaxWoEpicsRow, maxWo) else [];
    assert Sorted(h + w) && Below(h + w, maxStar, 3) by {
      if hasEpic {
        AppendOptRow(h, maxStar, MaxWoEpicsRow, maxWo);
      } else {
        assert h + w == h;
      }
    }
    AppendOptRow(h + w, maxStar, GoldRow, gold);
  }

  /** In an ordered list the star count never decreases and no (star, type) pair repeats. */
  lemma {:induction false} SortedRows(rows: seq<StatRow>)
    requires Sorted(rows)
    ensures forall i, j :: 0 <= i <= j < |rows| ==> rows[i].star <= rows[j].star
    ensures forall i, j :: 0 <= i < j < |rows| ==>
      (rows[i].star, rows[i].rowType) != (rows[j].star, rows[j].rowType)
  {
  }

  /**
   * What the `stat` list holds: full rows exactly for the kept entries of star counts
   * 1 .. maxStar - 1 (so star entries at or above the top count are dropped), a stock
   * row at one star when there is a stock entry, a max-w/o-epics row at the top star
   * exactly when the car has epic parts and such an entry, and a gold row at the top
   * star when there is a gold entry.
   */
  lemma {:induction false} StatListContents(
    stock: Option<StatEntry>, best: map<nat, StatEntry>, maxWo: Option<StatEntry>,
    gold: Option<StatEntry>, maxStar: nat, hasEpic: bool)
    ensures var rows := StatList(stock, best, maxWo, gold, maxStar, hasEpic);
      && (forall r :: r in rows && r.rowType == FullRow ==>
            1 <= r.star < maxStar && r.star in best && r == RowOf(r.star, FullRow, best[r.star]))
      && (forall s :: 1 <= s < maxStar && s in best ==> RowOf(s, FullRow, best[s]) in rows)
      && (forall r :: r in rows && r.rowType == StockRow ==> stock.Some? && r == RowOf(1, StockRow, stock.value))
      && (stock.Some? ==> RowOf(1, StockRow, stock.value) in rows)
      && (forall r :: r in rows && r.rowType == MaxWoEpicsRow ==>
            hasEpic && maxWo.Some? && r == RowOf(maxStar, MaxWoEpicsRow, maxWo.value))
      && (hasEpic && maxWo.Some? ==> RowOf(maxStar, MaxWoEpicsRow, maxWo.value) in rows)
      && (forall r :: r in rows && r.rowType == GoldRow ==> gold.Some? && r == RowOf(maxStar, GoldRow, gold.value))
      && (gold.Some? ==> RowOf(maxStar, GoldRow, gold.value) in rows)
  {
    FullRowsSpec(best, maxStar);
    var f := FullRows(best, maxStar);
    forall r | r in f
      ensures r.rowType == FullRow
    {
      var k :| 0 <= k < |f| && f[k] == r;
    }
  }
}
