/** The battery-health map: three row sets, in whatever order the database returns them, folded into
    one aggregate per battery. */
module HealthMap {
  import opened Prelude
  import opened BatteryHealth

  type Table = map<int, Session>

  // --- the rows of the queries ---

  /** ORDER BY started_at ASC, id ASC */
  predicate Precedes(t: Table, a: int, b: int)
    requires a in t && b in t
  {
    t[a].startedAt < t[b].startedAt || (t[a].startedAt == t[b].startedAt && a < b)
  }

  /** Only rows assigned to a battery take part, and only one battery's if it is named. */
  predicate InScope(only: int, b: int) {
    if only > 0 then b == only else b > 0
  }

  /** The rows the capacity query keeps, or the resistance query. */
  predicate Keeps(s: Session, rint: bool) {
    (if rint then SqlRintEligible(s) else SqlCapacityEligible(s)) == Some(true)
  }

  function RowsOf(t: Table, b: int, rint: bool): (ids: set<int>)
    ensures ids <= t.Keys
  {
    set id | id in t && t[id].batteryId == b && Keeps(t[id], rint)
  }

  /** Where every chemistry is known, the rows SQL keeps are the sessions Go counts. */
  lemma KnownChemistriesAgree(t: Table, b: int)
    requires forall id | id in t :: KnownChemistry(t[id].chemistry)
    ensures RowsOf(t, b, false) == set id | id in t && t[id].batteryId == b && CapacityEligible(t[id])
    ensures RowsOf(t, b, true) == set id | id in t && t[id].batteryId == b && RintEligible(t[id])
  {
    forall id | id in t
      ensures Keeps(t[id], false) == CapacityEligible(t[id]) && Keeps(t[id], true) == RintEligible(t[id])
    {
      CapacityPredicatesAgree(t[id]);
      RintPredicatesAgree(t[id]);
    }
  }

  /** ROW_NUMBER() over the rows of one battery, newest first or oldest first. */
  function RowNumber(t: Table, ids: set<int>, id: int, newestFirst: bool): nat
    requires ids <= t.Keys && id in t
  {
    1 + |set m | m in ids && m != id && if newestFirst then Precedes(t, id, m) else Precedes(t, m, id)|
  }

  predicate IsFirst(t: Table, ids: set<int>, id: int, newestFirst: bool)
    requires ids <= t.Keys && id in t
  {
    forall m | m in ids && m != id :: if newestFirst then Precedes(t, m, id) else Precedes(t, id, m)
  }

  lemma NumberOneIsFirst(t: Table, ids: set<int>, id: int, newestFirst: bool)
    requires ids <= t.Keys && id in t
    ensures RowNumber(t, ids, id, newestFirst) == 1 <==> IsFirst(t, ids, id, newestFirst)
  {
    var ahead := set m | m in ids && m != id && if newestFirst then Precedes(t, id, m) else Precedes(t, m, id);
    if ahead == {} {
      forall m | m in ids && m != id ensures if newestFirst then Precedes(t, m, id) else Precedes(t, id, m) {
        assert m !in ahead;
      }
    }
    if IsFirst(t, ids, id, newestFirst) { assert forall m | m in ids :: m !in ahead; }
  }

  /** One row of the capacity or the resistance query. */
  datatype Row = Row(batteryId: int, value: real, rnDesc: nat, rnAsc: nat)

  datatype Sums = Sums(batteryId: int, sumMah: real, sumWh: real)

  /** The value the query computes for a row: the charge, or the per-cell resistance. */
  function ValueOf(s: Session, rint: bool): real {
    if !rint then s.deliveredMah
    else if s.startVoltage.None? || s.onsetVoltage.None? || s.onsetCurrent.None?
            || s.onsetCurrent.value == 0.0 || s.cells == 0
    then 0.0
    else (s.onsetVoltage.value - s.startVoltage.value) / s.onsetCurrent.value / s.cells as real * 1000.0
  }

  /** All values of a query, by session. */
  function Values(t: Table, rint: bool): int -> real {
    id => if id in t then ValueOf(t[id], rint) else 0.0
  }

  /** The rows that a query returned, for the sessions in `order` with values v. */
  ghost predicate Answers(t: Table, v: int -> real, only: int, rint: bool, order: seq<int>, rows: seq<Row>) {
    && |rows| == |order|
    && (forall i, j | 0 <= i < j < |order| :: order[i] != order[j])
    && (forall id :: id in order <==> id in t && InScope(only, t[id].batteryId) && Keeps(t[id], rint))
    && (forall i | 0 <= i < |order| :: order[i] in order)
    && (forall i | 0 <= i < |order| :: RowFits(t, v, rint, order[i], rows[i]))
  }

  ghost predicate RowFits(t: Table, v: int -> real, rint: bool, id: int, r: Row) {
    id in t &&
    var all := RowsOf(t, t[id].batteryId, rint);
    r == Row(t[id].batteryId, v(id), RowNumber(t, all, id, true), RowNumber(t, all, id, false))
  }

  // --- the aggregates ---

  datatype Agg = Agg(
    count: nat, latest: Option<real>, best: Option<real>, first: Option<real>,
    hasCompleted: bool, sumMah: real, totalWh: real,
    rintCount: nat, latestRint: Option<real>, bestRint: Option<real>)

  const NOTHING := Agg(0, None, None, None, false, 0.0, 0.0, 0, None, None)

  /** One family of an aggregate: how many rows, the value of the newest and the best value. */
  datatype Family = Family(count: nat, latest: Option<real>, best: Option<real>)

  function CapacityOf(a: Agg): Family { Family(a.count, a.latest, a.best) }
  function RintOf(a: Agg): Family { Family(a.rintCount, a.latestRint, a.bestRint) }

  /** x is the value of the first row in the given order, as soon as that row has been seen. */
  ghost predicate IsValueOfFirst(t: Table, v: int -> real, seen: set<int>, all: set<int>, newestFirst: bool,
                                 x: Option<real>)
    requires seen <= all <= t.Keys
  {
    match x
    case None => forall id | id in seen :: !IsFirst(t, all, id, newestFirst)
    case Some(value) => exists id :: id in seen && IsFirst(t, all, id, newestFirst) && value == v(id)
  }

  /** x is the greatest value among the rows seen, or the least. */
  ghost predicate IsBest(v: int -> real, least: bool, seen: set<int>, x: Option<real>) {
    match x
    case None => seen == {}
    case Some(value) =>
      && (exists id :: id in seen && value == v(id))
      && (forall id | id in seen :: if least then value <= v(id) else v(id) <= value)
  }

  /** The family of the rows seen, where the newest is that of all rows. The most charge is
      best, or the least resistance. */
  ghost predicate FamilyIs(t: Table, v: int -> real, least: bool, seen: set<int>, all: set<int>, f: Family)
    requires seen <= all <= t.Keys
  {
    && f.count == |seen|
    && IsBest(v, least, seen, f.best)
    && IsValueOfFirst(t, v, seen, all, true, f.latest)
  }

  function Better(least: bool, value: real, best: Option<real>): Option<real> {
    if best.None? || (if least then value < best.value else value > best.value) then Some(value) else best
  }

  function Grown(f: Family, least: bool, r: Row): Family {
    Family(f.count + 1, if r.rnDesc == 1 then Some(r.value) else f.latest, Better(least, r.value, f.best))
  }

  lemma BestGrows(v: int -> real, least: bool, seen: set<int>, id: int, x: Option<real>)
    requires IsBest(v, least, seen, x)
    ensures IsBest(v, least, seen + {id}, Better(least, v(id), x))
  {
    assert id in seen + {id};
    if x.Some? {
      var best :| best in seen && x.value == v(best);
      assert best in seen + {id};
    }
  }

  lemma FirstGrows(t: Table, v: int -> real, seen: set<int>, all: set<int>, id: int, newestFirst: bool, x: Option<real>)
    requires seen <= all <= t.Keys && id in all && IsValueOfFirst(t, v, seen, all, newestFirst, x)
    ensures IsValueOfFirst(t, v, seen + {id}, all, newestFirst,
              if RowNumber(t, all, id, newestFirst) == 1 then Some(v(id)) else x)
  {
    NumberOneIsFirst(t, all, id, newestFirst);
    assert id in seen + {id};
    if x.Some? {
      var n :| n in seen && IsFirst(t, all, n, newestFirst) && x.value == v(n);
      assert n in seen + {id};
    }
  }

  /** Taking in one more row keeps a family right, whichever row it is. */
  lemma FamilyGrows(t: Table, v: int -> real, least: bool, seen: set<int>, all: set<int>, id: int, r: Row, f: Family)
    requires seen <= all <= t.Keys && id in all && id !in seen && FamilyIs(t, v, least, seen, all, f)
    requires r.value == v(id) && r.rnDesc == RowNumber(t, all, id, true)
    ensures FamilyIs(t, v, least, seen + {id}, all, Grown(f, least, r))
  {
    BestGrows(v, least, seen, id, f.best);
    FirstGrows(t, v, seen, all, id, true, f.latest);
  }

  lemma FirstIsUnique(t: Table, ids: set<int>, a: int, b: int, newestFirst: bool)
    requires ids <= t.Keys && a in ids && b in ids
    requires IsFirst(t, ids, a, newestFirst) && IsFirst(t, ids, b, newestFirst)
    ensures a == b
  {
  }

  lemma FirstValueIsUnique(t: Table, v: int -> real, all: set<int>, newestFirst: bool, x: Option<real>, y: Option<real>)
    requires all <= t.Keys
    requires IsValueOfFirst(t, v, all, all, newestFirst, x) && IsValueOfFirst(t, v, all, all, newestFirst, y)
    ensures x == y
  {
    if x.Some? && y.Some? {
      var a :| a in all && IsFirst(t, all, a, newestFirst) && x.value == v(a);
      var b :| b in all && IsFirst(t, all, b, newestFirst) && y.value == v(b);
      FirstIsUnique(t, all, a, b, newestFirst);
    }
  }

  lemma BestIsUnique(v: int -> real, least: bool, all: set<int>, x: Option<real>, y: Option<real>)
    requires IsBest(v, least, all, x) && IsBest(v, least, all, y)
    ensures x == y
  {
    if x.Some? && y.Some? {
      var a :| a in all && x.value == v(a);
      var b :| b in all && y.value == v(b);
    }
  }

  /** With all rows seen a family is determined: it is the direct definition, and there is only one. */
  lemma FamilyIsUnique(t: Table, v: int -> real, least: bool, all: set<int>, f: Family, g: Family)
    requires all <= t.Keys && FamilyIs(t, v, least, all, all, f) && FamilyIs(t, v, least, all, all, g)
    ensures f == g
  {
    BestIsUnique(v, least, all, f.best, g.best);
    FirstValueIsUnique(t, v, all, true, f.latest, g.latest);
  }

  lemma PickFirst(t: Table, ids: set<int>, newestFirst: bool) returns (first: int)
    requires ids <= t.Keys && ids != {}
    ensures first in ids && IsFirst(t, ids, first, newestFirst)
  {
    EmptyOrNot(ids);
    first :| first in ids;
    if ids != {first} {
      var rest := ids - {first};
      assert ids == rest + {first};
      var f := PickFirst(t, rest, newestFirst);
      if if newestFirst then Precedes(t, first, f) else Precedes(t, f, first) { first := f; }
    }
  }

  ghost predicate CapacityIs(t: Table, v: int -> real, seen: set<int>, all: set<int>, a: Agg)
    requires seen <= all <= t.Keys
  {
    && FamilyIs(t, v, false, seen, all, CapacityOf(a))
    && IsValueOfFirst(t, v, seen, all, false, a.first)
  }

  ghost predicate RintIs(t: Table, v: int -> real, seen: set<int>, all: set<int>, a: Agg)
    requires seen <= all <= t.Keys
  {
    FamilyIs(t, v, true, seen, all, RintOf(a))
  }

  function CompletedRows(t: Table, b: int): (ids: set<int>)
    ensures ids <= t.Keys
  {
    set id | id in t && t[id].batteryId == b && t[id].state == "completed" && t[id].deliveredMah > 0.0
  }

  /** SUM over rows, taken in some order. */
  ghost function SumOf(t: Table, ids: set<int>, figure: Session -> real): real
    requires ids <= t.Keys
    decreases |ids|
  {
    if ids == {} then 0.0
    else
      EmptyOrNot(ids);
      var id :| id in ids;
      figure(t[id]) + SumOf(t, ids - {id}, figure)
  }

  function Mah(s: Session): real { s.deliveredMah }
  function Wh(s: Session): real { s.deliveredWh }

  /** The order makes no difference: any row can be added last. */
  lemma {:induction false} SumInAnyOrder(t: Table, ids: set<int>, id: int, figure: Session -> real)
    requires ids <= t.Keys && id in ids
    ensures SumOf(t, ids, figure) == figure(t[id]) + SumOf(t, ids - {id}, figure)
    decreases |ids|
  {
    var picked := PickedFirst(t, ids, figure);
    if picked != id {
      SumInAnyOrder(t, ids - {picked}, id, figure);
      SumInAnyOrder(t, ids - {id}, picked, figure);
      assert ids - {picked} - {id} == ids - {id} - {picked};
    }
  }

  lemma PickedFirst(t: Table, ids: set<int>, figure: Session -> real) returns (id: int)
    requires ids <= t.Keys && ids != {}
    ensures id in ids && SumOf(t, ids, figure) == figure(t[id]) + SumOf(t, ids - {id}, figure)
  {
    EmptyOrNot(ids);
    id :| id in ids && SumOf(t, ids, figure) == figure(t[id]) + SumOf(t, ids - {id}, figure);
  }

  ghost predicate ThroughputIs(t: Table, b: int, a: Agg) {
    var ids := CompletedRows(t, b);
    && (a.hasCompleted <==> ids != {})
    && a.sumMah == SumOf(t, ids, Mah) && a.totalWh == SumOf(t, ids, Wh)
  }

  /** The direct definition of a battery's aggregate. */
  ghost predicate AggIs(t: Table, b: int, a: Agg) {
    var capacity, rint := RowsOf(t, b, false), RowsOf(t, b, true);
    && CapacityIs(t, Values(t, false), capacity, capacity, a)
    && ThroughputIs(t, b, a)
    && RintIs(t, Values(t, true), rint, rint, a)
  }

  lemma AggIsUnique(t: Table, b: int, x: Agg, y: Agg)
    requires AggIs(t, b, x) && AggIs(t, b, y)
    ensures x == y
  {
    var capacity, rint := RowsOf(t, b, false), RowsOf(t, b, true);
    FamilyIsUnique(t, Values(t, false), false, capacity, CapacityOf(x), CapacityOf(y));
    FirstValueIsUnique(t, Values(t, false), capacity, false, x.first, y.first);
    FamilyIsUnique(t, Values(t, true), true, rint, RintOf(x), RintOf(y));
    assert CapacityOf(x) == CapacityOf(y) && x.first == y.first && RintOf(x) == RintOf(y);
    assert x.hasCompleted == y.hasCompleted && x.sumMah == y.sumMah && x.totalWh == y.totalWh;
    assert x == Agg(y.count, y.latest, y.best, y.first, y.hasCompleted, y.sumMah, y.totalWh,
                    y.rintCount, y.latestRint, y.bestRint);
  }

  // --- the fold ---

  function Get(aggs: map<int, Agg>, b: int): Agg {
    if b in aggs then aggs[b] else NOTHING
  }

  /** The sessions of one battery among those whose rows have been taken in. */
  function Seen(t: Table, order: seq<int>, b: int): set<int> {
    set id | id in order && id in t && t[id].batteryId == b
  }

  lemma SeenAfter(t: Table, order: seq<int>, i: nat, b: int)
    requires i < |order| && order[i] in t
    ensures Seen(t, order[..i + 1], b) ==
            if t[order[i]].batteryId == b then Seen(t, order[..i], b) + {order[i]} else Seen(t, order[..i], b)
  {
    assert order[..i + 1] == order[..i] + [order[i]];
  }

  lemma SeenIsPart(t: Table, v: int -> real, only: int, rint: bool, order: seq<int>, rows: seq<Row>, i: nat, b: int)
    requires Answers(t, v, only, rint, order, rows) && i <= |order|
    ensures Seen(t, order[..i], b) <= RowsOf(t, b, rint)
    ensures i < |order| ==> order[i] !in Seen(t, order[..i], b)
    ensures i == |order| && InScope(only, b) ==> Seen(t, order[..i], b) == RowsOf(t, b, rint)
  {
    forall id | id in Seen(t, order[..i], b) ensures id in RowsOf(t, b, rint) && (i < |order| ==> id != order[i]) {
      var k :| 0 <= k < i && order[k] == id;
      assert order[k] in order;
    }
    if i == |order| && InScope(only, b) {
      assert order[..i] == order;
      forall id | id in RowsOf(t, b, rint) ensures id in Seen(t, order[..i], b) {
        assert id in order;
      }
    }
  }

  function CapacityGrown(a: Agg, r: Row): Agg {
    var f := Grown(CapacityOf(a), false, r);
    a.(count := f.count, latest := f.latest, best := f.best, first := if r.rnAsc == 1 then Some(r.value) else a.first)
  }

  function RintGrown(a: Agg, r: Row): Agg {
    var f := Grown(RintOf(a), true, r);
    a.(rintCount := f.count, latestRint := f.latest, bestRint := f.best)
  }

  lemma CapacityRowKeeps(t: Table, v: int -> real, only: int, order: seq<int>, rows: seq<Row>, i: nat, b: int, a: Agg)
    requires Answers(t, v, only, false, order, rows) && i < |order|
    requires Seen(t, order[..i], b) <= RowsOf(t, b, false)
    requires CapacityIs(t, v, Seen(t, order[..i], b), RowsOf(t, b, false), a)
    ensures Seen(t, order[..i + 1], b) <= RowsOf(t, b, false)
    ensures CapacityIs(t, v, Seen(t, order[..i + 1], b), RowsOf(t, b, false),
                       if rows[i].batteryId == b then CapacityGrown(a, rows[i]) else a)
  {
    assert RowFits(t, v, false, order[i], rows[i]);
    SeenAfter(t, order, i, b);
    SeenIsPart(t, v, only, false, order, rows, i, b);
    SeenIsPart(t, v, only, false, order, rows, i + 1, b);
    if rows[i].batteryId == b {
      var seen, all := Seen(t, order[..i], b), RowsOf(t, b, false);
      FamilyGrows(t, v, false, seen, all, order[i], rows[i], CapacityOf(a));
      FirstGrows(t, v, seen, all, order[i], false, a.first);
    }
  }

  lemma RintRowKeeps(t: Table, v: int -> real, only: int, order: seq<int>, rows: seq<Row>, i: nat, b: int, a: Agg)
    requires Answers(t, v, only, true, order, rows) && i < |order|
    requires Seen(t, order[..i], b) <= RowsOf(t, b, true)
    requires RintIs(t, v, Seen(t, order[..i], b), RowsOf(t, b, true), a)
    ensures Seen(t, order[..i + 1], b) <= RowsOf(t, b, true)
    ensures RintIs(t, v, Seen(t, order[..i + 1], b), RowsOf(t, b, true),
                   if rows[i].batteryId == b then RintGrown(a, rows[i]) else a)
  {
    assert RowFits(t, v, true, order[i], rows[i]);
    SeenAfter(t, order, i, b);
    SeenIsPart(t, v, only, true, order, rows, i, b);
    SeenIsPart(t, v, only, true, order, rows, i + 1, b);
    if rows[i].batteryId == b {
      FamilyGrows(t, v, true, Seen(t, order[..i], b), RowsOf(t, b, true), order[i], rows[i], RintOf(a));
    }
  }

  /** What has been taken in for every battery. */
  ghost predicate CapacityTaken(t: Table, v: int -> real, order: seq<int>, aggs: map<int, Agg>) {
    forall b :: Seen(t, order, b) <= RowsOf(t, b, false)
                && CapacityIs(t, v, Seen(t, order, b), RowsOf(t, b, false), Get(aggs, b))
  }

  ghost predicate RintTaken(t: Table, v: int -> real, order: seq<int>, aggs: map<int, Agg>) {
    forall b :: Seen(t, order, b) <= RowsOf(t, b, true)
                && RintIs(t, v, Seen(t, order, b), RowsOf(t, b, true), Get(aggs, b))
  }

  lemma CapacityRowIsTaken(t: Table, v: int -> real, only: int, order: seq<int>, rows: seq<Row>, i: nat,
                           aggs: map<int, Agg>)
    requires Answers(t, v, only, false, order, rows) && i < |order| && CapacityTaken(t, v, order[..i], aggs)
    ensures CapacityTaken(t, v, order[..i + 1],
                          aggs[rows[i].batteryId := CapacityGrown(Get(aggs, rows[i].batteryId), rows[i])])
  {
    var aggs' := aggs[rows[i].batteryId := CapacityGrown(Get(aggs, rows[i].batteryId), rows[i])];
    forall b ensures Seen(t, order[..i + 1], b) <= RowsOf(t, b, false)
                     && CapacityIs(t, v, Seen(t, order[..i + 1], b), RowsOf(t, b, false), Get(aggs', b)) {
      CapacityRowKeeps(t, v, only, order, rows, i, b, Get(aggs, b));
    }
  }

  lemma RintRowIsTaken(t: Table, v: int -> real, only: int, order: seq<int>, rows: seq<Row>, i: nat,
                       aggs: map<int, Agg>)
    requires Answers(t, v, only, true, order, rows) && i < |order| && RintTaken(t, v, order[..i], aggs)
    ensures RintTaken(t, v, order[..i + 1], aggs[rows[i].batteryId := RintGrown(Get(aggs, rows[i].batteryId), rows[i])])
  {
    var aggs' := aggs[rows[i].batteryId := RintGrown(Get(aggs, rows[i].batteryId), rows[i])];
    forall b ensures Seen(t, order[..i + 1], b) <= RowsOf(t, b, true)
                     && RintIs(t, v, Seen(t, order[..i + 1], b), RowsOf(t, b, true), Get(aggs', b)) {
      RintRowKeeps(t, v, only, order, rows, i, b, Get(aggs, b));
    }
  }

  lemma NothingTaken(t: Table, v: int -> real, aggs: map<int, Agg>)
    ensures (forall b :: CapacityOf(Get(aggs, b)) == CapacityOf(NOTHING) && Get(aggs, b).first.None?) ==>
              CapacityTaken(t, v, [], aggs)
    ensures (forall b :: RintOf(Get(aggs, b)) == RintOf(NOTHING)) ==> RintTaken(t, v, [], aggs)
  {
    assert forall b :: Seen(t, [], b) == {};
  }

  predicate SameThroughput(a: Agg, b: Agg) {
    a.hasCompleted == b.hasCompleted && a.sumMah == b.sumMah && a.totalWh == b.totalWh
  }

  predicate SameCapacity(a: Agg, b: Agg) {
    CapacityOf(a) == CapacityOf(b) && a.first == b.first
  }

  /** The other families are those of the start. */
  ghost predicate OnlyCapacity(aggs: map<int, Agg>, start: map<int, Agg>) {
    forall b :: SameThroughput(Get(aggs, b), Get(start, b)) && RintOf(Get(aggs, b)) == RintOf(Get(start, b))
  }

  ghost predicate OnlyRint(aggs: map<int, Agg>, start: map<int, Agg>) {
    forall b :: SameThroughput(Get(aggs, b), Get(start, b)) && SameCapacity(Get(aggs, b), Get(start, b))
  }

  ghost predicate OnlyThroughput(aggs: map<int, Agg>, start: map<int, Agg>) {
    forall b :: SameCapacity(Get(aggs, b), Get(start, b)) && RintOf(Get(aggs, b)) == RintOf(Get(start, b))
  }

  lemma OthersStay(aggs: map<int, Agg>, start: map<int, Agg>, b: int, a: Agg)
    ensures OnlyCapacity(aggs, start) && SameThroughput(a, Get(aggs, b)) && RintOf(a) == RintOf(Get(aggs, b)) ==>
              OnlyCapacity(aggs[b := a], start)
    ensures OnlyRint(aggs, start) && SameThroughput(a, Get(aggs, b)) && SameCapacity(a, Get(aggs, b)) ==>
              OnlyRint(aggs[b := a], start)
    ensures OnlyThroughput(aggs, start) && SameCapacity(a, Get(aggs, b)) && RintOf(a) == RintOf(Get(aggs, b)) ==>
              OnlyThroughput(aggs[b := a], start)
  {
  }

  method AddCapacity(was: Agg, r: Row) returns (a: Agg)
    ensures a == CapacityGrown(was, r)
    ensures SameThroughput(a, was) && RintOf(a) == RintOf(was)
  {
    a := was.(count := was.count + 1);
    if a.best.None? || r.value > a.best.value { a := a.(best := Some(r.value)); }
    if r.rnDesc == 1 { a := a.(latest := Some(r.value)); }
    if r.rnAsc == 1 { a := a.(first := Some(r.value)); }
  }

  method AddRint(was: Agg, r: Row) returns (a: Agg)
    ensures a == RintGrown(was, r)
    ensures SameThroughput(a, was) && SameCapacity(a, was)
  {
    a := was.(rintCount := was.rintCount + 1);
    if a.bestRint.None? || r.value < a.bestRint.value { a := a.(bestRint := Some(r.value)); }
    if r.rnDesc == 1 { a := a.(latestRint := Some(r.value)); }
  }

  method FoldCapacity(ghost t: Table, ghost v: int -> real, ghost only: int, ghost order: seq<int>, rows: seq<Row>)
    returns (aggs: map<int, Agg>)
    requires Answers(t, v, only, false, order, rows)
    ensures CapacityTaken(t, v, order, aggs) && OnlyCapacity(aggs, map[])
  {
    aggs := map[];
    NothingTaken(t, v, aggs);
    for i := 0 to |rows|
      invariant CapacityTaken(t, v, order[..i], aggs) && OnlyCapacity(aggs, map[])
    {
      CapacityRowIsTaken(t, v, only, order, rows, i, aggs);
      var a := AddCapacity(Get(aggs, rows[i].batteryId), rows[i]);
      OthersStay(aggs, map[], rows[i].batteryId, a);
      aggs := aggs[rows[i].batteryId := a];
    }
    assert order[..|rows|] == order;
  }

  method FoldRint(ghost t: Table, ghost v: int -> real, ghost only: int, ghost order: seq<int>, rows: seq<Row>,
                  start: map<int, Agg>)
    returns (aggs: map<int, Agg>)
    requires Answers(t, v, only, true, order, rows)
    requires forall b :: RintOf(Get(start, b)) == RintOf(NOTHING)
    ensures RintTaken(t, v, order, aggs) && OnlyRint(aggs, start)
  {
    aggs := start;
    NothingTaken(t, v, aggs);
    for i := 0 to |rows|
      invariant RintTaken(t, v, order[..i], aggs) && OnlyRint(aggs, start)
    {
      RintRowIsTaken(t, v, only, order, rows, i, aggs);
      var a := AddRint(Get(aggs, rows[i].batteryId), rows[i]);
      OthersStay(aggs, start, rows[i].batteryId, a);
      aggs := aggs[rows[i].batteryId := a];
    }
    assert order[..|rows|] == order;
  }

  /** The grouped sums: one row for every battery in scope that has a completed session. */
  ghost predicate Groups(t: Table, only: int, rows: seq<Sums>) {
    && (forall i, j | 0 <= i < j < |rows| :: rows[i].batteryId != rows[j].batteryId)
    && (forall i | 0 <= i < |rows| :: GroupFits(t, only, rows[i]))
    && (forall b | InScope(only, b) && CompletedRows(t, b) != {} ::
          exists i :: 0 <= i < |rows| && rows[i].batteryId == b)
  }

  ghost predicate GroupFits(t: Table, only: int, r: Sums) {
    var ids := CompletedRows(t, r.batteryId);
    && InScope(only, r.batteryId) && ids != {}
    && r.sumMah == SumOf(t, ids, Mah) && r.sumWh == SumOf(t, ids, Wh)
  }

  /** A battery whose group has been taken in has its sums, any other has none. */
  ghost predicate Summed(t: Table, rows: seq<Sums>, b: int, a: Agg) {
    if exists k :: 0 <= k < |rows| && rows[k].batteryId == b then ThroughputIs(t, b, a) else SameThroughput(a, NOTHING)
  }

  lemma SummedIsThroughput(t: Table, only: int, rows: seq<Sums>, b: int, a: Agg)
    requires Groups(t, only, rows) && InScope(only, b) && Summed(t, rows, b, a)
    ensures ThroughputIs(t, b, a)
  {
    forall k | 0 <= k < |rows| && rows[k].batteryId == b ensures CompletedRows(t, b) != {} {
      assert GroupFits(t, only, rows[k]);
    }
  }

  ghost predicate AllSummed(t: Table, rows: seq<Sums>, aggs: map<int, Agg>) {
    forall b :: Summed(t, rows, b, Get(aggs, b))
  }

  lemma GroupIsSummed(t: Table, only: int, rows: seq<Sums>, i: nat, aggs: map<int, Agg>, a: Agg)
    requires i < |rows| && GroupFits(t, only, rows[i]) && AllSummed(t, rows[..i], aggs)
    requires a.hasCompleted && a.sumMah == rows[i].sumMah && a.totalWh == rows[i].sumWh
    ensures AllSummed(t, rows[..i + 1], aggs[rows[i].batteryId := a])
  {
    var rows', aggs' := rows[..i + 1], aggs[rows[i].batteryId := a];
    forall b ensures Summed(t, rows', b, Get(aggs', b)) {
      assert Summed(t, rows[..i], b, Get(aggs, b));
      if b == rows[i].batteryId {
        assert rows'[i].batteryId == b;
      } else if k :| 0 <= k < i && rows[..i][k].batteryId == b {
        assert rows'[k].batteryId == b;
      }
    }
  }

  method FoldThroughput(ghost t: Table, ghost only: int, rows: seq<Sums>, start: map<int, Agg>)
    returns (aggs: map<int, Agg>)
    requires Groups(t, only, rows)
    requires forall b :: SameThroughput(Get(start, b), NOTHING)
    ensures (forall b | InScope(only, b) :: ThroughputIs(t, b, Get(aggs, b))) && OnlyThroughput(aggs, start)
  {
    aggs := start;
    assert AllSummed(t, rows[..0], aggs);
    for i := 0 to |rows|
      invariant AllSummed(t, rows[..i], aggs) && OnlyThroughput(aggs, start)
    {
      var r := rows[i];
      assert GroupFits(t, only, r);
      var a := Get(aggs, r.batteryId).(hasCompleted := true, sumMah := r.sumMah, totalWh := r.sumWh);
      GroupIsSummed(t, only, rows, i, aggs, a);
      OthersStay(aggs, start, r.batteryId, a);
      aggs := aggs[r.batteryId := a];
    }
    assert rows[..|rows|] == rows;
    forall b | InScope(only, b) ensures ThroughputIs(t, b, Get(aggs, b)) {
      assert Summed(t, rows, b, Get(aggs, b));
      SummedIsThroughput(t, only, rows, b, Get(aggs, b));
    }
  }

  // --- the health figures ---

  datatype Health = Health(
    fullCycleCount: nat, latestCapacity: Option<real>, bestCapacity: Option<real>, firstCapacity: Option<real>,
    soh: Option<real>, degradation: Option<real>, equivalentCycles: Option<real>, totalWh: real,
    rintCount: nat, latestRint: Option<real>, bestRint: Option<real>)

  function Derive(a: Agg, rated: real): Health {
    var emits := a.count > 0 && a.latest.Some? && a.best.Some? && a.first.Some? && a.best.value > 0.0;
    Health(a.count,
           if emits then a.latest else None, if emits then a.best else None, if emits then a.first else None,
           if !emits then None
           else Some(if rated > 0.0 then 100.0 * a.latest.value / rated else 100.0 * a.latest.value / a.best.value),
           if emits then Some(100.0 * (1.0 - a.latest.value / a.best.value)) else None,
           if rated > 0.0 && a.hasCompleted then Some(a.sumMah / rated) else None,
           a.totalWh, a.rintCount, a.latestRint, a.bestRint)
  }

  /** A battery's health by the direct definition. */
  ghost predicate HealthIs(t: Table, b: int, rated: real, h: Health) {
    exists a :: AggIs(t, b, a) && h == Derive(a, rated)
  }

  lemma AllSeen(t: Table, v: int -> real, only: int, rint: bool, order: seq<int>, rows: seq<Row>, b: int)
    requires Answers(t, v, only, rint, order, rows) && InScope(only, b)
    ensures Seen(t, order, b) == RowsOf(t, b, rint)
  {
    SeenIsPart(t, v, only, rint, order, rows, |order|, b);
    assert order[..|order|] == order;
  }

  lemma CapacityCarries(t: Table, v: int -> real, order: seq<int>, aggs: map<int, Agg>, b: int, a: Agg)
    requires CapacityTaken(t, v, order, aggs) && Seen(t, order, b) == RowsOf(t, b, false)
    requires SameCapacity(a, Get(aggs, b))
    ensures CapacityIs(t, v, RowsOf(t, b, false), RowsOf(t, b, false), a)
  {
  }

  /** The map holds every battery in scope with its health by the direct definition, whatever the order
      of the rows. */
  method BatteryHealthMap(ghost t: Table, only: int, batteries: map<int, real>,
                          ghost capacityOrder: seq<int>, capacityRows: seq<Row>, sums: seq<Sums>,
                          ghost rintOrder: seq<int>, rintRows: seq<Row>)
    returns (out: map<int, Health>)
    requires forall b | b in batteries :: b > 0
    requires Answers(t, Values(t, false), only, false, capacityOrder, capacityRows)
    requires Answers(t, Values(t, true), only, true, rintOrder, rintRows)
    requires Groups(t, only, sums)
    ensures forall b :: b in out <==> b in batteries && InScope(only, b)
    ensures forall b | b in out :: HealthIs(t, b, batteries[b], out[b])
  {
    var aggs := FoldCapacity(t, Values(t, false), only, capacityOrder, capacityRows);
    ghost var first := aggs;
    aggs := FoldThroughput(t, only, sums, aggs);
    aggs := FoldRint(t, Values(t, true), only, rintOrder, rintRows, aggs);
    out := map b | b in batteries && InScope(only, b) :: Derive(Get(aggs, b), batteries[b]);
    forall b | b in out ensures HealthIs(t, b, batteries[b], out[b]) {
      AllSeen(t, Values(t, false), only, false, capacityOrder, capacityRows, b);
      AllSeen(t, Values(t, true), only, true, rintOrder, rintRows, b);
      CapacityCarries(t, Values(t, false), capacityOrder, first, b, Get(aggs, b));
      assert AggIs(t, b, Get(aggs, b));
    }
  }

  /** A battery has one health, so the query for one battery and the full map agree on it. */
  lemma HealthIsUnique(t: Table, b: int, rated: real, g: Health, h: Health)
    requires HealthIs(t, b, rated, g) && HealthIs(t, b, rated, h)
    ensures g == h
  {
    var x :| AggIs(t, b, x) && g == Derive(x, rated);
    var y :| AggIs(t, b, y) && h == Derive(y, rated);
    AggIsUnique(t, b, x, y);
  }

  /** A full family of positive values: there is a newest and an oldest, and the best is the greatest. */
  lemma FamilyFigures(t: Table, v: int -> real, ids: set<int>, f: Family, first: Option<real>)
    requires ids <= t.Keys && FamilyIs(t, v, false, ids, ids, f) && IsValueOfFirst(t, v, ids, ids, false, first)
    requires forall id | id in ids :: v(id) > 0.0
    ensures f.count == 0 <==> ids == {}
    ensures ids != {} ==> f.latest.Some? && first.Some? && f.best.Some? && 0.0 < f.latest.value <= f.best.value
  {
    if ids != {} {
      var newest := PickFirst(t, ids, true);
      var oldest := PickFirst(t, ids, false);
    }
  }

  lemma CapacityFigures(t: Table, b: int, a: Agg)
    requires AggIs(t, b, a)
    ensures a.count == 0 <==> RowsOf(t, b, false) == {}
    ensures a.count > 0 ==> a.latest.Some? && a.first.Some? && a.best.Some? && 0.0 < a.latest.value <= a.best.value
  {
    var ids, v := RowsOf(t, b, false), Values(t, false);
    forall id | id in ids ensures v(id) > 0.0 { assert Keeps(t[id], false); }
    FamilyFigures(t, v, ids, CapacityOf(a), a.first);
  }

  lemma RatioInUnit(x: real, y: real)
    requires 0.0 < x <= y
    ensures 0.0 < x / y <= 1.0 && (x / y == 1.0 <==> x == y)
  {
    DivideOrder(0.0, x, y);
    DivideOrder(y, x, y);
    DivideOrder(x, y, y);
  }

  /** The capacity figures appear exactly when there is a full cycle; degradation lies in [0, 100) and is
      0 exactly when the latest capacity is the best. */
  lemma DegradationInRange(t: Table, b: int, rated: real, h: Health)
    requires HealthIs(t, b, rated, h)
    ensures h.fullCycleCount > 0 <==> RowsOf(t, b, false) != {}
    ensures h.degradation.Some? <==> h.fullCycleCount > 0
    ensures h.soh.Some? <==> h.fullCycleCount > 0
    ensures h.degradation.Some? ==>
              && h.latestCapacity.Some? && h.bestCapacity.Some? && h.firstCapacity.Some?
              && 0.0 <= h.degradation.value < 100.0
              && (h.degradation.value == 0.0 <==> h.latestCapacity == h.bestCapacity)
  {
    var a :| AggIs(t, b, a) && h == Derive(a, rated);
    CapacityFigures(t, b, a);
    if a.count > 0 { RatioInUnit(a.latest.value, a.best.value); }
  }

  // --- the figures, read off the rows ---

  lemma {:induction false} SameSums(t: Table, ids: set<int>, f: Session -> real, g: Session -> real)
    requires ids <= t.Keys && forall s :: f(s) == g(s)
    ensures SumOf(t, ids, f) == SumOf(t, ids, g)
    decreases |ids|
  {
    if ids != {} {
      var id := PickedFirst(t, ids, f);
      SumInAnyOrder(t, ids, id, g);
      SameSums(t, ids - {id}, f, g);
    }
  }

  /** Session `id` is the newest of these, by start and then by key. */
  predicate IsNewest(t: Table, ids: set<int>, id: int)
    requires ids <= t.Keys
  {
    id in ids && forall m | m in ids ::
      t[m].startedAt < t[id].startedAt || (t[m].startedAt == t[id].startedAt && m <= id)
  }

  predicate IsOldest(t: Table, ids: set<int>, id: int)
    requires ids <= t.Keys
  {
    id in ids && forall m | m in ids ::
      t[id].startedAt < t[m].startedAt || (t[m].startedAt == t[id].startedAt && id <= m)
  }

  predicate Percent(share: real, part: real, whole: real) {
    share * whole == 100.0 * part
  }

  lemma PercentOf(part: real, whole: real)
    requires whole > 0.0
    ensures Percent(100.0 * part / whole, part, whole)
    ensures Percent(100.0 * (1.0 - part / whole), whole - part, whole)
  {
    var q := part / whole;
    assert q * whole == part;
    assert (1.0 - q) * whole == whole - q * whole;
    assert 100.0 * part / whole * whole == 100.0 * part;
  }

  /** The capacity figures are those of the battery's full cycles: the newest, the oldest, the greatest; the state of
      health is the newest in percent of the rated capacity, or of the greatest if none is rated; the
      degradation is what the newest lacks to the greatest, in percent of it. */
  lemma CapacityInFigures(t: Table, b: int, rated: real, h: Health, newest: int, oldest: int, best: int)
    requires HealthIs(t, b, rated, h)
    requires IsNewest(t, RowsOf(t, b, false), newest) && IsOldest(t, RowsOf(t, b, false), oldest)
    requires best in RowsOf(t, b, false)
    requires forall m | m in RowsOf(t, b, false) :: t[m].deliveredMah <= t[best].deliveredMah
    ensures h.fullCycleCount == |RowsOf(t, b, false)|
    ensures h.latestCapacity == Some(t[newest].deliveredMah) && h.bestCapacity == Some(t[best].deliveredMah)
    ensures h.firstCapacity == Some(t[oldest].deliveredMah)
    ensures h.soh.Some? && h.degradation.Some?
    ensures Percent(h.soh.value, t[newest].deliveredMah, if rated > 0.0 then rated else t[best].deliveredMah)
    ensures Percent(h.degradation.value, t[best].deliveredMah - t[newest].deliveredMah, t[best].deliveredMah)
  {
    var a :| AggIs(t, b, a) && h == Derive(a, rated);
    CapacityFigures(t, b, a);
    NewestAndBest(t, b, a, newest, best);
    OldestIsFirst(t, b, a, oldest);
    DerivedShares(a, rated);
  }

  lemma OldestIsFirst(t: Table, b: int, a: Agg, oldest: int)
    requires AggIs(t, b, a) && IsOldest(t, RowsOf(t, b, false), oldest)
    ensures a.first == Some(t[oldest].deliveredMah)
  {
    var ids, v := RowsOf(t, b, false), Values(t, false);
    assert IsFirst(t, ids, oldest, false) && v(oldest) == t[oldest].deliveredMah;
    FirstValueIsUnique(t, v, ids, false, a.first, Some(v(oldest)));
  }

  lemma DerivedShares(a: Agg, rated: real)
    requires a.count > 0 && a.latest.Some? && a.best.Some? && a.first.Some? && a.best.value > 0.0
    ensures var h := Derive(a, rated);
            && h.soh.Some? && h.degradation.Some?
            && h.latestCapacity == a.latest && h.bestCapacity == a.best && h.firstCapacity == a.first
            && Percent(h.soh.value, a.latest.value, if rated > 0.0 then rated else a.best.value)
            && Percent(h.degradation.value, a.best.value - a.latest.value, a.best.value)
  {
    PercentOf(a.latest.value, a.best.value);
    if rated > 0.0 { PercentOf(a.latest.value, rated); }
  }

  lemma NewestAndBest(t: Table, b: int, a: Agg, newest: int, best: int)
    requires AggIs(t, b, a) && IsNewest(t, RowsOf(t, b, false), newest)
    requires best in RowsOf(t, b, false)
    requires forall m | m in RowsOf(t, b, false) :: t[m].deliveredMah <= t[best].deliveredMah
    ensures a.latest == Some(t[newest].deliveredMah) && a.best == Some(t[best].deliveredMah)
  {
    var ids, v := RowsOf(t, b, false), Values(t, false);
    assert v(newest) == t[newest].deliveredMah && v(best) == t[best].deliveredMah;
    assert IsFirst(t, ids, newest, true);
    FirstValueIsUnique(t, v, ids, true, a.latest, Some(v(newest)));
    assert forall m | m in ids :: v(m) == t[m].deliveredMah;
    BestIsUnique(v, false, ids, a.best, Some(v(best)));
  }

  predicate IsQuotient(q: real, part: real, whole: real) {
    q * whole == part
  }

  lemma DerivedCycles(a: Agg, rated: real)
    ensures var h := Derive(a, rated);
            && h.totalWh == a.totalWh
            && (h.equivalentCycles.Some? <==> rated > 0.0 && a.hasCompleted)
            && (h.equivalentCycles.Some? ==> IsQuotient(h.equivalentCycles.value, a.sumMah, rated))
  {
    if rated > 0.0 { assert a.sumMah / rated * rated == a.sumMah; }
  }

  /** Energy and equivalent cycles count every completed session that delivered charge. */
  lemma ThroughputInFigures(t: Table, b: int, rated: real, h: Health)
    requires HealthIs(t, b, rated, h)
    ensures var ids := CompletedRows(t, b);
            && h.totalWh == SumOf(t, ids, (s: Session) => s.deliveredWh)
            && (h.equivalentCycles.Some? <==> rated > 0.0 && ids != {})
            && (h.equivalentCycles.Some? ==>
                  IsQuotient(h.equivalentCycles.value, SumOf(t, ids, (s: Session) => s.deliveredMah), rated))
  {
    var ids := CompletedRows(t, b);
    var a :| AggIs(t, b, a) && h == Derive(a, rated);
    SameSums(t, ids, Wh, (s: Session) => s.deliveredWh);
    SameSums(t, ids, Mah, (s: Session) => s.deliveredMah);
    DerivedCycles(a, rated);
  }

  predicate IsMilliohms(r: real, s: Session)
    requires s.startVoltage.Some? && s.onsetVoltage.Some? && s.onsetCurrent.Some?
  {
    r * (s.onsetCurrent.value * s.cells as real) == 1000.0 * (s.onsetVoltage.value - s.startVoltage.value)
  }

  lemma ValueIsMilliohms(s: Session)
    requires Keeps(s, true)
    ensures s.startVoltage.Some? && s.onsetVoltage.Some? && s.onsetCurrent.Some?
    ensures IsMilliohms(ValueOf(s, true), s) && ValueOf(s, true) > 0.0
    ensures RintEligible(s) ==> ValueOf(s, true) == RintCell(s)
  {
    var step, amps, cells := s.onsetVoltage.value - s.startVoltage.value, s.onsetCurrent.value, s.cells as real;
    Ratio(step, amps, cells);
  }

  lemma Ratio(step: real, amps: real, cells: real)
    requires step > 0.0 && amps > 0.0 && cells > 0.0
    ensures step / amps / cells * 1000.0 > 0.0
    ensures step / amps / cells * 1000.0 * (amps * cells) == 1000.0 * step
  {
    var x := step / amps;
    var y := x / cells;
    DivideOrder(0.0, step, amps);
    DivideOrder(0.0, x, cells);
    assert x * amps == step && y * cells == x;
    assert y * (amps * cells) == y * cells * amps;
  }

  /** The resistance figures are those of the sessions that measured one: the newest, and the least. Each
      value is the voltage step over the current, per cell, in milliohms. */
  lemma ResistanceInFigures(t: Table, b: int, rated: real, h: Health, newest: int)
    requires HealthIs(t, b, rated, h) && IsNewest(t, RowsOf(t, b, true), newest)
    ensures h.rintCount == |RowsOf(t, b, true)| && h.latestRint.Some? && h.bestRint.Some?
    ensures h.latestRint.value == ValueOf(t[newest], true)
    ensures exists best :: best in RowsOf(t, b, true) && h.bestRint.value == ValueOf(t[best], true)
    ensures forall m | m in RowsOf(t, b, true) :: h.bestRint.value <= ValueOf(t[m], true)
  {
    var a :| AggIs(t, b, a) && h == Derive(a, rated);
    var ids, v := RowsOf(t, b, true), Values(t, true);
    assert forall m | m in ids :: v(m) == ValueOf(t[m], true);
    assert IsFirst(t, ids, newest, true);
    FirstValueIsUnique(t, v, ids, true, a.latestRint, Some(v(newest)));
    assert a.bestRint.Some?;
    var best :| best in ids && a.bestRint.value == v(best);
  }
}
