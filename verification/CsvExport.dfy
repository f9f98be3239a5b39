/** CSV exports page through a table with a keyset cursor and write every page as it arrives. */
module CsvExport {
  import opened Prelude

  /** A journal entry or a history row; history rows carry no kind and are unique by ts. */
  datatype Row = Row(ts: int, id: int, kind: string)

  const PAGE_SIZE: nat := 1000

  // --- queries ---

  /** ORDER BY ts ASC, id ASC */
  predicate Before(a: Row, b: Row) {
    a.ts < b.ts || (a.ts == b.ts && a.id < b.id)
  }

  ghost predicate Sorted(rows: seq<Row>) {
    forall i, j | 0 <= i < j < |rows| ::
      rows[i].ts < rows[j].ts || (rows[i].ts == rows[j].ts && rows[i].id < rows[j].id)
  }

  /** The whole ordered result of a filtered query. */
  ghost predicate Lists(table: set<Row>, keep: Row -> bool, rows: seq<Row>) {
    Sorted(rows) && forall r :: r in rows <==> r in table && keep(r)
  }

  function Take(rows: seq<Row>, limit: nat): seq<Row> {
    if |rows| <= limit then rows else rows[..limit]
  }

  /** The result with LIMIT. */
  ghost predicate Answers(table: set<Row>, keep: Row -> bool, rows: seq<Row>) {
    exists all :: Lists(table, keep, all) && rows == Take(all, PAGE_SIZE)
  }

  lemma HasFirst(rows: seq<Row>)
    ensures rows == [] || rows[0] in rows
  {
  }

  /** A filtered query has one ordered result. */
  lemma {:induction false} SortedIsUnique(a: seq<Row>, b: seq<Row>)
    requires Sorted(a) && Sorted(b) && forall r :: r in a <==> r in b
    ensures a == b
    decreases |a|
  {
    HasFirst(a);
    HasFirst(b);
    if a != [] {
      assert a[0] == b[0];
      forall r ensures r in a[1..] <==> r in b[1..] {
        if r in a[1..] { assert r in a && r != a[0]; }
        if r in b[1..] { assert r in b && r != b[0]; }
      }
      SortedIsUnique(a[1..], b[1..]);
    }
  }

  predicate EventMatches(r: Row, from: int, to: int, kinds: seq<string>) {
    && (from > 0 ==> r.ts >= from)
    && (to > 0 ==> r.ts <= to)
    && (kinds != [] ==> r.kind in kinds)
  }

  function EventFilter(from: int, to: int, kinds: seq<string>): Row -> bool {
    r => EventMatches(r, from, to, kinds)
  }

  datatype EventCursor = EventCursor(ts: int, id: int)

  function EventCursorOf(r: Row): EventCursor { EventCursor(r.ts, r.id) }

  function HistoryCursorOf(r: Row): int { r.ts + 1 }

  predicate AfterCursor(r: Row, c: EventCursor) {
    r.ts > c.ts || (r.ts == c.ts && r.id > c.id)
  }

  /** The filter of one event page: strictly after the cursor. */
  function EventsAfter(from: int, to: int, kinds: seq<string>, c: EventCursor): Row -> bool {
    r => EventMatches(r, from, to, kinds) && AfterCursor(r, c)
  }

  function HistoryFilter(from: int, to: int): Row -> bool {
    (r: Row) => from <= r.ts <= to
  }

  // --- a cursor serves the rest ---

  /** Fetching with the cursor of row k - 1 answers, if it answers at all, the rows from k on. */
  ghost predicate Serves<C(!new)>(all: seq<Row>, fetch: C -> Option<seq<Row>>, cursorOf: Row -> C) {
    forall k | 0 < k <= |all| :: ServesAt(all, fetch, cursorOf, k)
  }

  predicate ServesAt<C(!new)>(all: seq<Row>, fetch: C -> Option<seq<Row>>, cursorOf: Row -> C, k: int)
    requires 0 < k <= |all|
  {
    var answer := fetch(cursorOf(all[k - 1]));
    answer.Some? ==> answer.value == Take(all[k..], PAGE_SIZE)
  }

  predicate AnswersAt<C(!new)>(all: seq<Row>, fetch: C -> Option<seq<Row>>, cursorOf: Row -> C, k: int)
    requires 0 < k <= |all|
  {
    fetch(cursorOf(all[k - 1])).Some?
  }

  lemma RestOfSorted(table: set<Row>, keep: Row -> bool, rest: Row -> bool, all: seq<Row>, k: nat)
    requires Lists(table, keep, all) && k <= |all|
    requires forall r | r in table :: rest(r) <==> keep(r) && (k == 0 || Before(all[k - 1], r))
    ensures Lists(table, rest, all[k..])
  {
    assert forall i | 0 <= i < k :: !Before(all[k - 1], all[i]);
    forall r ensures r in all[k..] <==> r in table && rest(r) {
      if r in all[k..] {
        var i :| k <= i < |all| && all[i] == r;
        assert r in all;
      }
      if r in table && rest(r) {
        assert r in all;
        var i :| 0 <= i < |all| && all[i] == r;
        assert all[k..][i - k] == r;
      }
    }
  }

  lemma AnswerIsRest(table: set<Row>, keep: Row -> bool, rest: Row -> bool, all: seq<Row>, k: nat, rows: seq<Row>)
    requires Lists(table, keep, all) && k <= |all|
    requires forall r | r in table :: rest(r) <==> keep(r) && (k == 0 || Before(all[k - 1], r))
    requires Answers(table, rest, rows)
    ensures rows == Take(all[k..], PAGE_SIZE)
  {
    RestOfSorted(table, keep, rest, all, k);
    var full :| Lists(table, rest, full) && rows == Take(full, PAGE_SIZE);
    SortedIsUnique(full, all[k..]);
  }

  /** The (ts, id) cursor of the event journal skips and repeats nothing, whatever timestamps collide. */
  lemma EventCursorServes(table: set<Row>, from: int, to: int, kinds: seq<string>, all: seq<Row>,
                          fetch: EventCursor -> Option<seq<Row>>)
    requires Lists(table, EventFilter(from, to, kinds), all)
    requires forall c :: fetch(c).Some? ==> Answers(table, EventsAfter(from, to, kinds, c), fetch(c).value)
    ensures Serves(all, fetch, EventCursorOf)
  {
    forall k | 0 < k <= |all| ensures ServesAt(all, fetch, EventCursorOf, k) {
      var c := EventCursor(all[k - 1].ts, all[k - 1].id);
      if fetch(c).Some? {
        AnswerIsRest(table, EventFilter(from, to, kinds), EventsAfter(from, to, kinds, c), all, k, fetch(c).value);
      }
    }
  }

  /** The first event page, asked for with (-1, -1), is the start of the whole result. */
  lemma FirstEventPage(table: set<Row>, from: int, to: int, kinds: seq<string>, all: seq<Row>, first: seq<Row>)
    requires forall r | r in table :: r.ts >= 0
    requires Lists(table, EventFilter(from, to, kinds), all)
    requires Answers(table, EventsAfter(from, to, kinds, EventCursor(-1, -1)), first)
    ensures first == Take(all, PAGE_SIZE)
  {
    AnswerIsRest(table, EventFilter(from, to, kinds), EventsAfter(from, to, kinds, EventCursor(-1, -1)), all, 0, first);
    assert all[0..] == all;
  }

  /** The ts + 1 cursor of the history tables does so because ts is their key. */
  lemma HistoryCursorServes(table: set<Row>, from: int, to: int, all: seq<Row>, fetch: int -> Option<seq<Row>>)
    requires forall a, b | a in table && b in table && a.ts == b.ts :: a == b
    requires Lists(table, HistoryFilter(from, to), all)
    requires forall c :: fetch(c).Some? ==> Answers(table, HistoryFilter(c, to), fetch(c).value)
    ensures Serves(all, fetch, HistoryCursorOf)
  {
    forall k | 0 < k <= |all| ensures ServesAt(all, fetch, HistoryCursorOf, k) {
      var c := all[k - 1].ts + 1;
      assert all[k - 1] in all;
      if fetch(c).Some? {
        AnswerIsRest(table, HistoryFilter(from, to), HistoryFilter(c, to), all, k, fetch(c).value);
      }
    }
  }

  lemma FirstHistoryPage(table: set<Row>, from: int, to: int, all: seq<Row>, first: seq<Row>)
    requires Lists(table, HistoryFilter(from, to), all) && Answers(table, HistoryFilter(from, to), first)
    ensures first == Take(all, PAGE_SIZE)
  {
    AnswerIsRest(table, HistoryFilter(from, to), HistoryFilter(from, to), all, 0, first);
    assert all[0..] == all;
  }

  // --- the stream ---

  /** Writes the pages one after another until a short page or a failed fetch. The file holds the whole
      one-shot result, or, after a failure, a prefix of whole pages of it; a complete export of n rows
      takes n / PAGE_SIZE further fetches, the last of them empty when n is an exact multiple. */
  method StreamCSVPages<C(!new)>(ghost all: seq<Row>, first: seq<Row>, fetch: C -> Option<seq<Row>>, cursorOf: Row -> C)
    returns (written: seq<Row>, fetches: nat, failed: bool)
    requires first == Take(all, PAGE_SIZE) && Serves(all, fetch, cursorOf)
    ensures !failed ==> written == all && fetches == |all| / PAGE_SIZE
    ensures failed ==> written <= all && fetches > 0 && |written| == fetches * PAGE_SIZE
    ensures failed ==> fetch(cursorOf(written[|written| - 1])).None?
    ensures (forall k | 0 < k <= |all| :: AnswersAt(all, fetch, cursorOf, k)) ==> !failed
  {
    written, fetches, failed := [], 0, false;
    var page := first;
    assert all[0..] == all;
    while true
      invariant |written| == fetches * PAGE_SIZE && written <= all && !failed
      invariant page == Take(all[|written|..], PAGE_SIZE)
      decreases |all| - |written|
    {
      ghost var k := |written|;
      PageFollows(all, k);
      written := WritePage(written, page);
      if |page| < PAGE_SIZE {
        return;
      }
      var next := fetch(cursorOf(page[|page| - 1]));
      assert page[|page| - 1] == all[|written| - 1] == written[|written| - 1];
      assert ServesAt(all, fetch, cursorOf, |written|);
      fetches := fetches + 1;
      if next.None? {
        assert !AnswersAt(all, fetch, cursorOf, |written|);
        failed := true;
        return;
      }
      page := next.value;
    }
  }

  lemma PageFollows(all: seq<Row>, k: nat)
    requires k <= |all|
    ensures var page := Take(all[k..], PAGE_SIZE);
            && all[..k] + page == all[..k + |page|]
            && (|page| < PAGE_SIZE ==> k + |page| == |all|)
  {
  }

  method WritePage(before: seq<Row>, page: seq<Row>) returns (written: seq<Row>)
    ensures written == before + page
  {
    written := before;
    for i := 0 to |page|
      invariant written == before + page[..i]
    {
      written := written + [page[i]];
    }
  }

  // --- the two downloads ---

  lemma SameFilter(table: set<Row>, keep: Row -> bool, also: Row -> bool, rows: seq<Row>)
    requires Lists(table, keep, rows) && forall r | r in table :: keep(r) <==> also(r)
    ensures Lists(table, also, rows)
  {
  }

  /** The event download, for a store that answers some fetches and fails others: a complete file is the
      whole filtered query in order, and one cut short by a failed fetch a beginning of it. */
  method GetEventsCSV(ghost table: set<Row>, from: int, to: int, kinds: seq<string>,
                      fetch: EventCursor -> Option<seq<Row>>)
    returns (file: Option<seq<Row>>, failed: bool)
    requires forall r | r in table :: r.ts >= 0
    requires forall c :: fetch(c).Some? ==> Answers(table, EventsAfter(from, to, kinds, c), fetch(c).value)
    ensures file.None? <==> fetch(EventCursor(-1, -1)).None?
    ensures file.Some? && !failed ==> Lists(table, EventFilter(from, to, kinds), file.value)
    ensures file.Some? && !failed ==>
              forall r :: r in file.value <==>
                && r in table && (from <= 0 || from <= r.ts) && (to <= 0 || r.ts <= to)
                && (kinds == [] || r.kind in kinds)
    ensures file.Some? && failed ==> exists all :: Lists(table, EventFilter(from, to, kinds), all) && file.value <= all
    ensures (forall c :: fetch(c).Some?) ==> file.Some? && !failed
  {
    var first := fetch(EventCursor(-1, -1));
    if first.None? { return None, false; }
    ghost var all :| Lists(table, EventsAfter(from, to, kinds, EventCursor(-1, -1)), all);
    SameFilter(table, EventsAfter(from, to, kinds, EventCursor(-1, -1)), EventFilter(from, to, kinds), all);
    FirstEventPage(table, from, to, kinds, all, first.value);
    EventCursorServes(table, from, to, kinds, all, fetch);
    var written, fetches, cut := StreamCSVPages(all, first.value, fetch, EventCursorOf);
    return Some(written), cut;
  }

  /** The history download, of a table whose key is ts. */
  method GetHistoryCSV(ghost table: set<Row>, from: int, to: int, fetch: int -> Option<seq<Row>>)
    returns (file: Option<seq<Row>>, failed: bool)
    requires forall a, b | a in table && b in table && a.ts == b.ts :: a == b
    requires forall c :: fetch(c).Some? ==> Answers(table, HistoryFilter(c, to), fetch(c).value)
    ensures file.None? <==> fetch(from).None?
    ensures file.Some? && !failed ==> Lists(table, HistoryFilter(from, to), file.value)
    ensures file.Some? && !failed ==> forall r :: r in file.value <==> r in table && from <= r.ts && r.ts <= to
    ensures file.Some? && failed ==> exists all :: Lists(table, HistoryFilter(from, to), all) && file.value <= all
    ensures (forall c :: fetch(c).Some?) ==> file.Some? && !failed
  {
    var first := fetch(from);
    if first.None? { return None, false; }
    ghost var all :| Lists(table, HistoryFilter(from, to), all);
    FirstHistoryPage(table, from, to, all, first.value);
    HistoryCursorServes(table, from, to, all, fetch);
    var written, fetches, cut := StreamCSVPages(all, first.value, fetch, HistoryCursorOf);
    return Some(written), cut;
  }
}
