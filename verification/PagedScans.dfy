/** Bounded collection of paged lists: the Issue comment scan (scripts/actions_request_handler.py),
    the collectors of CI runs and jobs (scripts/actions_ci_inspect.py), of producer pages
    (scripts/actions_ledger_producer.py) and of recipe runs (scripts/actions_recipe_dispatch.py). */
module PagedScans {
  import opened Common

  /** An entry with the id it is told apart by; `content` stands for the rest. */
  datatype Item = Item(id: int, content: string)

  /** A page of a list that reports its total. */
  datatype Page = Page(total: int, rows: seq<Item>)

  datatype ScanError = ApiFailed | Malformed | Duplicate | Changed | Incomplete | Exceeded

  const PER_PAGE := 100
  const MAX_PAGES := 10

  function Flatten(pages: seq<seq<Item>>): seq<Item> {
    if pages == [] then [] else Flatten(pages[..|pages| - 1]) + pages[|pages| - 1]
  }

  predicate DistinctIds(items: seq<Item>) {
    forall i, j | 0 <= i < j < |items| :: items[i].id != items[j].id
  }

  predicate PositiveIds(items: seq<Item>) {
    forall i | 0 <= i < |items| :: items[i].id > 0
  }

  ghost function Ids(items: seq<Item>): set<int> {
    set i | 0 <= i < |items| :: items[i].id
  }

  /** What page `p` of a list shows. */
  function PageOf(items: seq<Item>, p: nat): seq<Item> {
    if 100 * p >= |items| then []
    else if 100 * (p + 1) >= |items| then items[100 * p..]
    else items[100 * p..100 * (p + 1)]
  }

  lemma FlattenStep(pages: seq<seq<Item>>, n: nat)
    requires n < |pages|
    ensures Flatten(pages[..n + 1]) == Flatten(pages[..n]) + pages[n]
  {
    assert pages[..n + 1][..n] == pages[..n];
  }

  lemma IdsOfPush(items: seq<Item>, x: Item)
    ensures Ids(items + [x]) == Ids(items) + {x.id}
  {
    var more := items + [x];
    assert forall i | 0 <= i < |items| :: more[i] == items[i];
    assert more[|items|] == x;
    forall id | id in Ids(items) + {x.id} ensures id in Ids(more) {
      if id in Ids(items) {
        var i :| 0 <= i < |items| && items[i].id == id;
        assert more[i].id == id;
      } else {
        assert more[|items|].id == id;
      }
    }
  }

  /** Takes one page's rows into what has been collected, refusing ids already seen. */
  method Absorb(items: seq<Item>, seen: set<int>, rows: seq<Item>) returns (ok: bool, more: seq<Item>, now: set<int>)
    requires DistinctIds(items) && seen == Ids(items)
    ensures ok <==> DistinctIds(items + rows)
    ensures ok ==> more == items + rows && now == Ids(more)
  {
    more, now := items, seen;
    for i := 0 to |rows|
      invariant more == items + rows[..i] && now == Ids(more) && DistinctIds(more)
    {
      if rows[i].id in now {
        var k :| 0 <= k < |more| && more[k].id == rows[i].id;
        assert (items + rows)[k].id == (items + rows)[|items| + i].id;
        return false, more, now;
      }
      assert items + rows[..i + 1] == more + [rows[i]];
      IdsOfPush(more, rows[i]);
      more, now := more + [rows[i]], now + {rows[i].id};
    }
    assert items + rows[..|rows|] == items + rows;
    ok := true;
  }

  // ----- the Issue comment scan

  /** Pages `1..n`, ten at most, are whole (a hundred entries), the last of them is not full, all ids are positive and distinct. */
  predicate CompleteScan(pages: seq<seq<Item>>, n: int) {
    && 0 < n <= 10 && n <= |pages|
    && (forall p | 0 <= p < n - 1 :: |pages[p]| == 100) && |pages[n - 1]| < 100
    && PositiveIds(Flatten(pages[..n])) && DistinctIds(Flatten(pages[..n]))
  }

  /** `_scan_issue_comments`; `pages[p]` is what the server answers to the request for page
      `p + 1`, whenever that request is made; a request beyond the last answer fails. */
  method ScanIssueComments(pages: seq<seq<Item>>) returns (r: Result<seq<Item>, ScanError>)
    ensures r.Ok? <==> exists n :: CompleteScan(pages, n)
    ensures r.Ok? ==> exists n :: CompleteScan(pages, n) && r.value == Flatten(pages[..n])
  {
    hide Flatten, DistinctIds, PositiveIds;
    var comments: seq<Item> := [];
    var seen: set<int> := {};
    NoIds();
    NoPages(pages);
    for page := 0 to MAX_PAGES
      invariant page <= |pages| && comments == Flatten(pages[..page]) && seen == Ids(comments)
      invariant DistinctIds(comments) && PositiveIds(comments)
      invariant forall p | 0 <= p < page :: |pages[p]| == PER_PAGE
    {
      if page >= |pages| { return Err(ApiFailed); }
      var items := pages[page];
      FlattenStep(pages, page);
      forall n | CompleteScan(pages, n)
        ensures |items| <= PER_PAGE && PositiveIds(items) && DistinctIds(Flatten(pages[..page + 1]))
      {
        CompleteScanFits(pages, page, n);
      }
      if |items| > PER_PAGE { return Err(Malformed); }
      if !PositiveIds(items) { return Err(Malformed); }
      PositiveTogether(comments, items);
      var ok;
      ok, comments, seen := Absorb(comments, seen, items);
      if !ok { return Err(Duplicate); }
      if |items| < PER_PAGE {
        assert CompleteScan(pages, page + 1);
        return Ok(comments);
      }
    }
    return Err(Exceeded);
  }

  lemma NoPages(pages: seq<seq<Item>>)
    ensures Flatten(pages[..0]) == []
  {
  }

  lemma {:induction false} FlattenPrefix(pages: seq<seq<Item>>, m: nat, n: nat)
    requires m <= n <= |pages|
    ensures Flatten(pages[..m]) <= Flatten(pages[..n])
    decreases n
  {
    if m < n {
      FlattenStep(pages, n - 1);
      FlattenPrefix(pages, m, n - 1);
    }
  }

  lemma PrefixKeepsIds(items: seq<Item>, more: seq<Item>)
    requires items <= more && DistinctIds(more) && PositiveIds(more)
    ensures DistinctIds(items) && PositiveIds(items)
  {
    assert forall i | 0 <= i < |items| :: items[i] == more[i];
  }

  lemma RowsKeepIds(items: seq<Item>, rows: seq<Item>)
    requires PositiveIds(items + rows)
    ensures PositiveIds(rows)
  {
    assert forall i | 0 <= i < |rows| :: (items + rows)[|items| + i] == rows[i];
  }

  lemma PositiveTogether(items: seq<Item>, rows: seq<Item>)
    requires PositiveIds(items) && PositiveIds(rows)
    ensures PositiveIds(items + rows)
  {
  }

  lemma NoIds()
    ensures DistinctIds([]) && PositiveIds([]) && Ids([]) == {}
  {
  }

  /** Of a complete scan every page after full ones is short enough and brings new good ids. */
  lemma CompleteScanFits(pages: seq<seq<Item>>, page: nat, n: int)
    requires page < |pages| && (forall p | 0 <= p < page :: |pages[p]| == PER_PAGE) && CompleteScan(pages, n)
    ensures |pages[page]| <= PER_PAGE && PositiveIds(pages[page]) && DistinctIds(Flatten(pages[..page + 1]))
  {
    hide Flatten, DistinctIds, PositiveIds;
    assert page < n;
    FlattenStep(pages, page);
    FlattenPrefix(pages, page + 1, n);
    PrefixKeepsIds(Flatten(pages[..page + 1]), Flatten(pages[..n]));
    RowsKeepIds(Flatten(pages[..page]), pages[page]);
  }

  /** The log at each request, which only grows. */
  predicate Growing(logs: seq<seq<Item>>) {
    forall i, j | 0 <= i <= j < |logs| :: logs[i] <= logs[j]
  }

  lemma PageLength(items: seq<Item>, p: nat)
    ensures |PageOf(items, p)| <= PER_PAGE
    ensures |PageOf(items, p)| == PER_PAGE <==> |items| >= PER_PAGE * (p + 1)
  {
  }

  /** Full pages read from a growing log are its first entries. */
  lemma {:induction false} PagesOfLog(logs: seq<seq<Item>>, pages: seq<seq<Item>>, n: nat)
    requires Growing(logs) && |logs| == |pages| && 0 < n <= |pages|
    requires forall p | 0 <= p < |pages| :: pages[p] == PageOf(logs[p], p)
    requires forall p | 0 <= p < n - 1 :: |pages[p]| == PER_PAGE
    ensures |pages[n - 1]| == PER_PAGE ==>
              PER_PAGE * n <= |logs[n - 1]| && Flatten(pages[..n]) == logs[n - 1][..PER_PAGE * n]
    ensures |pages[n - 1]| < PER_PAGE ==> Flatten(pages[..n]) == logs[n - 1]
    decreases n
  {
    FlattenStep(pages, n - 1);
    PageLength(logs[n - 1], n - 1);
    if n == 1 {
      assert pages[..0] == [];
    } else {
      PagesOfLog(logs, pages, n - 1);
      PageLength(logs[n - 2], n - 2);
      var log := logs[n - 1];
      assert logs[n - 2] <= log;
      assert log[..PER_PAGE * (n - 1)] == logs[n - 2][..PER_PAGE * (n - 1)];
      if |pages[n - 1]| == PER_PAGE {
        assert log[..PER_PAGE * n] == log[..PER_PAGE * (n - 1)] + log[PER_PAGE * (n - 1)..PER_PAGE * n];
      } else {
        assert log == log[..PER_PAGE * (n - 1)] + log[PER_PAGE * (n - 1)..];
      }
    }
  }

  /** A scan of an append-only log returns exactly the log as it stood when the last page was
      read; it succeeds exactly when some page was read before the log had filled it, so for
      every log that stays below a thousand comments. */
  lemma ScanIsASnapshot(logs: seq<seq<Item>>, pages: seq<seq<Item>>)
    requires |logs| == |pages| == MAX_PAGES && Growing(logs)
    requires forall p | 0 <= p < MAX_PAGES :: pages[p] == PageOf(logs[p], p) && PositiveIds(logs[p]) && DistinctIds(logs[p])
    ensures (exists n :: CompleteScan(pages, n)) <==> exists p :: 0 <= p < MAX_PAGES && |logs[p]| < PER_PAGE * (p + 1)
    ensures forall n | CompleteScan(pages, n) :: Flatten(pages[..n]) == logs[n - 1]
    ensures |logs[MAX_PAGES - 1]| < 1000 ==> exists n :: CompleteScan(pages, n)
  {
    forall n | CompleteScan(pages, n) ensures Flatten(pages[..n]) == logs[n - 1] && |logs[n - 1]| < PER_PAGE * n {
      PagesOfLog(logs, pages, n);
      PageLength(logs[n - 1], n - 1);
    }
    if exists n :: CompleteScan(pages, n) {
      var n :| CompleteScan(pages, n);
      assert |logs[n - 1]| < PER_PAGE * (n - 1 + 1);
    }
    if p :| 0 <= p < MAX_PAGES && |logs[p]| < PER_PAGE * (p + 1) {
      var n := FirstShort(logs, pages, p);
    }
  }

  lemma {:induction false} FirstShort(logs: seq<seq<Item>>, pages: seq<seq<Item>>, p: nat) returns (n: nat)
    requires |logs| == |pages| == MAX_PAGES && Growing(logs) && p < MAX_PAGES
    requires forall p | 0 <= p < MAX_PAGES :: pages[p] == PageOf(logs[p], p) && PositiveIds(logs[p]) && DistinctIds(logs[p])
    requires |logs[p]| < PER_PAGE * (p + 1)
    ensures CompleteScan(pages, n)
    decreases p
  {
    if k :| 0 <= k < p && |logs[k]| < PER_PAGE * (k + 1) {
      n := FirstShort(logs, pages, k);
    } else {
      n := p + 1;
      forall k | 0 <= k < p ensures |pages[k]| == PER_PAGE { PageLength(logs[k], k); }
      PageLength(logs[p], p);
      PagesOfLog(logs, pages, n);
    }
  }

  /** Why every caller scans twice: two equal scans of an append-only log saw one and the same
      log, which did not change from the end of the first to the end of the second. */
  lemma EqualScansSeeOneLog(logs: seq<seq<Item>>, first: seq<seq<Item>>, second: seq<seq<Item>>, m: nat, n: nat, t: nat)
    requires Growing(logs) && |logs| == 2 * MAX_PAGES && |first| == |second| == MAX_PAGES
    requires forall p | 0 <= p < MAX_PAGES :: first[p] == PageOf(logs[p], p) && second[p] == PageOf(logs[MAX_PAGES + p], p)
    requires CompleteScan(first, m) && CompleteScan(second, n) && Flatten(first[..m]) == Flatten(second[..n])
    requires m - 1 <= t <= MAX_PAGES + n - 1
    ensures logs[t] == Flatten(first[..m])
  {
    var early, late := logs[..MAX_PAGES], logs[MAX_PAGES..];
    assert Growing(early) && Growing(late);
    PagesOfLog(early, first, m);
    PagesOfLog(late, second, n);
    assert logs[m - 1] <= logs[t] <= logs[MAX_PAGES + n - 1];
  }

  // ----- collectors that are told the total

  /** The entries of the first `n` pages. */
  function RowsOf(pages: seq<Page>): seq<seq<Item>> {
    seq(|pages|, i requires 0 <= i < |pages| => pages[i].rows)
  }

  function Gathered(pages: seq<Page>, n: nat): seq<Item>
    requires n <= |pages|
  {
    Flatten(RowsOf(pages)[..n])
  }

  /** The first `n` pages agree on a total within the limit and hold exactly that many entries,
      all different, and no fewer pages do. */
  predicate CompleteCollection(pages: seq<Page>, limit: nat, n: int) {
    && 0 < n <= 10 && n <= |pages|
    && (forall p | 0 <= p < n :: pages[p].total == pages[0].total && |pages[p].rows| <= 100)
    && 0 <= pages[0].total <= limit
    && (forall p | 0 <= p < n - 1 :: |pages[p].rows| == 100)
    && (forall p | 0 < p < n :: |Gathered(pages, p)| < pages[0].total)
    && |Gathered(pages, n)| == pages[0].total
    && DistinctIds(Gathered(pages, n)) && PositiveIds(Gathered(pages, n))
  }

  lemma GatheredStep(pages: seq<Page>, n: nat)
    requires n < |pages|
    ensures Gathered(pages, n + 1) == Gathered(pages, n) + pages[n].rows
  {
    FlattenStep(RowsOf(pages), n);
  }

  lemma {:induction false} GatheredPrefix(pages: seq<Page>, m: nat, n: nat)
    requires m <= n <= |pages|
    ensures Gathered(pages, m) <= Gathered(pages, n)
  {
    FlattenPrefix(RowsOf(pages), m, n);
  }

  /** What the first pages show so far does not rule a complete collection out. */
  ghost predicate SoFar(pages: seq<Page>, limit: nat, n: nat) {
    && n <= MAX_PAGES && n <= |pages|
    && (forall p | 0 <= p < n :: pages[p].total == pages[0].total && |pages[p].rows| == PER_PAGE)
    && (n > 0 ==> 0 <= pages[0].total <= limit)
    && (forall p | 0 < p <= n :: |Gathered(pages, p)| < pages[0].total)
    && DistinctIds(Gathered(pages, n)) && PositiveIds(Gathered(pages, n))
  }

  lemma NothingSoFar(pages: seq<Page>, limit: nat)
    ensures SoFar(pages, limit, 0) && Gathered(pages, 0) == []
  {
    assert RowsOf(pages)[..0] == [];
  }

  /** Page `n` cannot be part of any complete collection. */
  ghost predicate Stuck(pages: seq<Page>, limit: nat, n: nat)
    requires n < |pages|
  {
    || !(0 <= pages[n].total <= limit) || pages[n].total != pages[0].total || |pages[n].rows| > PER_PAGE
    || !PositiveIds(pages[n].rows) || !DistinctIds(Gathered(pages, n + 1))
    || |Gathered(pages, n + 1)| > pages[n].total
    || (|Gathered(pages, n + 1)| < pages[n].total && |pages[n].rows| < PER_PAGE)
  }

  /** Of a complete collection every page after the first `n` fits what was seen of them. */
  lemma CompleteIsNotStuck(pages: seq<Page>, limit: nat, n: nat, k: int)
    requires SoFar(pages, limit, n) && n < |pages| && CompleteCollection(pages, limit, k)
    ensures !Stuck(pages, limit, n)
  {
    hide Gathered, DistinctIds, PositiveIds;
    assert n < k;
    GatheredStep(pages, n);
    GatheredPrefix(pages, n + 1, k);
    PrefixKeepsIds(Gathered(pages, n + 1), Gathered(pages, k));
    RowsKeepIds(Gathered(pages, n), pages[n].rows);
  }

  lemma NoCollectionPast(pages: seq<Page>, limit: nat, n: nat)
    requires SoFar(pages, limit, n) && n < |pages|
    ensures Stuck(pages, limit, n) ==> forall k :: !CompleteCollection(pages, limit, k)
  {
    hide SoFar, Stuck, CompleteCollection;
    forall k | CompleteCollection(pages, limit, k) ensures !Stuck(pages, limit, n) {
      CompleteIsNotStuck(pages, limit, n, k);
    }
  }

  /** `_list_runs` (limit 999: a search is capped at a thousand results) and `_list_jobs`
      (limit 1000) of scripts/actions_ci_inspect.py: the same loop. */
  method Collect(pages: seq<Page>, limit: nat) returns (r: Result<seq<Item>, ScanError>)
    ensures r.Ok? <==> exists n :: CompleteCollection(pages, limit, n)
    ensures r.Ok? ==> exists n :: CompleteCollection(pages, limit, n) && r.value == Gathered(pages, n)
  {
    hide Gathered;
    var summaries: seq<Item> := [];
    var seen: set<int> := {};
    var expected := None;
    NothingSoFar(pages, limit);
    for page := 0 to MAX_PAGES
      invariant SoFar(pages, limit, page) && summaries == Gathered(pages, page) && seen == Ids(summaries)
      invariant expected == if page == 0 then None else Some(pages[0].total)
    {
      if page >= |pages| { return Err(ApiFailed); }
      var Page(total, rows) := pages[page];
      GatheredStep(pages, page);
      NoCollectionPast(pages, limit, page);
      if total < 0 || |rows| > PER_PAGE { return Err(Malformed); }
      if expected.Some? && total != expected.value { return Err(Changed); }
      if expected.None? {
        expected := Some(total);
        if total > limit { return Err(Incomplete); }
      }
      if !PositiveIds(rows) { return Err(Malformed); }
      var ok;
      ok, summaries, seen := Absorb(summaries, seen, rows);
      if !ok { return Err(Malformed); }
      if |summaries| == total {
        assert CompleteCollection(pages, limit, page + 1);
        return Ok(summaries);
      }
      if |summaries| > total || |rows| < PER_PAGE { return Err(Incomplete); }
    }
    NoneWithinTen(pages, limit);
    return Err(Incomplete);
  }

  lemma NoneWithinTen(pages: seq<Page>, limit: nat)
    requires SoFar(pages, limit, MAX_PAGES)
    ensures forall k :: !CompleteCollection(pages, limit, k)
  {
  }

  /** `_pages` of scripts/actions_ledger_producer.py, which checks in another order. */
  method Pages(pages: seq<Page>) returns (r: Result<seq<Item>, ScanError>)
    ensures r.Ok? <==> exists n :: CompleteCollection(pages, 1000, n)
    ensures r.Ok? ==> exists n :: CompleteCollection(pages, 1000, n) && r.value == Gathered(pages, n)
  {
    hide Gathered;
    var result: seq<Item> := [];
    var ids: set<int> := {};
    var total := None;
    NothingSoFar(pages, 1000);
    for page := 0 to MAX_PAGES
      invariant SoFar(pages, 1000, page) && result == Gathered(pages, page) && ids == Ids(result)
      invariant total == if page == 0 then None else Some(pages[0].total)
    {
      if page >= |pages| { return Err(ApiFailed); }
      var Page(count, entries) := pages[page];
      GatheredStep(pages, page);
      NoCollectionPast(pages, 1000, page);
      if !(0 <= count <= 1000) || |entries| > PER_PAGE || (total.Some? && total.value != count) { return Err(Malformed); }
      total := Some(count);
      if !PositiveIds(entries) { return Err(Malformed); }
      var ok;
      ok, result, ids := Absorb(result, ids, entries);
      if !ok { return Err(Malformed); }
      if |result| > count { return Err(Malformed); }
      if |result| == count {
        assert CompleteCollection(pages, 1000, page + 1);
        return Ok(result);
      }
      if |entries| != PER_PAGE { return Err(Incomplete); }
    }
    NoneWithinTen(pages, 1000);
    return Err(Incomplete);
  }

  // ----- a list that does not change while it is read

  predicate Shows(pages: seq<Page>, list: seq<Item>) {
    |pages| == 10 && forall p | 0 <= p < 10 :: pages[p] == Page(|list|, PageOf(list, p))
  }

  lemma {:induction false} GatheredFromList(pages: seq<Page>, list: seq<Item>, n: nat)
    requires Shows(pages, list) && n <= MAX_PAGES
    ensures Gathered(pages, n) == if PER_PAGE * n <= |list| then list[..PER_PAGE * n] else list
  {
    if n == 0 {
      NothingSoFar(pages, 0);
    } else {
      GatheredFromList(pages, list, n - 1);
      GatheredStep(pages, n - 1);
      PageLength(list, n - 1);
      hide Gathered;
      var m := PER_PAGE * (n - 1);
      if PER_PAGE * n <= |list| {
        assert list[..PER_PAGE * n] == list[..m] + list[m..PER_PAGE * n];
      } else if m <= |list| {
        assert list == list[..m] + list[m..];
      }
    }
  }

  /** On an unchanged list of distinct entries the collectors return exactly that list, when it
      is within their limit, and fail when it is not. */
  lemma CollectionIsTheList(pages: seq<Page>, list: seq<Item>, limit: nat)
    requires Shows(pages, list) && DistinctIds(list) && PositiveIds(list) && limit <= 1000
    ensures (exists n :: CompleteCollection(pages, limit, n)) <==> |list| <= limit
    ensures forall n | CompleteCollection(pages, limit, n) :: Gathered(pages, n) == list
  {
    hide Gathered;
    forall n | CompleteCollection(pages, limit, n) ensures Gathered(pages, n) == list && |list| <= limit {
      GatheredFromList(pages, list, n);
    }
    if |list| <= limit {
      var n := if |list| == 0 then 1 else (|list| + PER_PAGE - 1) / PER_PAGE;
      forall p | 0 <= p < n ensures |pages[p].rows| <= PER_PAGE && (p < n - 1 ==> |pages[p].rows| == PER_PAGE) {
        PageLength(list, p);
      }
      forall p | 0 < p <= n ensures p < n ==> |Gathered(pages, p)| < |list| { GatheredFromList(pages, list, p); }
      GatheredFromList(pages, list, n);
      assert CompleteCollection(pages, limit, n);
    }
  }

  // ----- the recipe run scan

  /** Full pages, then one that is not full, whose total is the number of entries gathered. */
  predicate CompleteRunScan(pages: seq<Page>, n: int) {
    && 0 < n <= 10 && n <= |pages|
    && (forall p | 0 <= p < n :: pages[p].total >= 0)
    && (forall p | 0 <= p < n - 1 :: |pages[p].rows| == 100) && |pages[n - 1].rows| < 100
    && PositiveIds(Gathered(pages, n)) && DistinctIds(Gathered(pages, n))
    && |Gathered(pages, n)| == pages[n - 1].total
  }

  /** `_scan_runs` of scripts/actions_recipe_dispatch.py. */
  method ScanRuns(pages: seq<Page>) returns (r: Result<seq<Item>, ScanError>)
    ensures r.Ok? <==> exists n :: CompleteRunScan(pages, n)
    ensures r.Ok? ==> exists n :: CompleteRunScan(pages, n) && r.value == Gathered(pages, n)
  {
    hide Gathered, DistinctIds, PositiveIds;
    var runs: seq<Item> := [];
    var seen: set<int> := {};
    NothingSoFar(pages, 0);
    NoIds();
    for page := 0 to MAX_PAGES
      invariant page <= |pages| && runs == Gathered(pages, page) && seen == Ids(runs) && DistinctIds(runs) && PositiveIds(runs)
      invariant forall p | 0 <= p < page :: |pages[p].rows| == PER_PAGE && pages[p].total >= 0
    {
      if page >= |pages| { return Err(ApiFailed); }
      var Page(total, rows) := pages[page];
      GatheredStep(pages, page);
      forall n | CompleteRunScan(pages, n)
        ensures total >= 0 && |rows| <= PER_PAGE && PositiveIds(rows) && DistinctIds(Gathered(pages, page + 1))
        ensures |rows| < PER_PAGE ==> |Gathered(pages, page + 1)| == total
      {
        CompleteRunScanFits(pages, page, n);
      }
      if total < 0 || |rows| > PER_PAGE { return Err(Malformed); }
      if !PositiveIds(rows) { return Err(Malformed); }
      PositiveTogether(runs, rows);
      var ok;
      ok, runs, seen := Absorb(runs, seen, rows);
      if !ok { return Err(Duplicate); }
      if |rows| < PER_PAGE {
        if |runs| != total { return Err(Incomplete); }
        assert CompleteRunScan(pages, page + 1);
        return Ok(runs);
      }
    }
    return Err(Exceeded);
  }

  /** Of a complete scan every page after full ones fits them. */
  lemma CompleteRunScanFits(pages: seq<Page>, page: nat, n: int)
    requires page < |pages| && (forall p | 0 <= p < page :: |pages[p].rows| == PER_PAGE) && CompleteRunScan(pages, n)
    ensures pages[page].total >= 0 && |pages[page].rows| <= PER_PAGE
    ensures PositiveIds(pages[page].rows) && DistinctIds(Gathered(pages, page + 1))
    ensures |pages[page].rows| < PER_PAGE ==> |Gathered(pages, page + 1)| == pages[page].total
  {
    hide Gathered, DistinctIds, PositiveIds;
    assert page < n;
    GatheredStep(pages, page);
    GatheredPrefix(pages, page + 1, n);
    PrefixKeepsIds(Gathered(pages, page + 1), Gathered(pages, n));
    RowsKeepIds(Gathered(pages, page), pages[page].rows);
  }

  /** On an unchanged list the scan returns exactly that list, up to 999 runs. */
  lemma RunScanIsTheList(pages: seq<Page>, list: seq<Item>)
    requires Shows(pages, list) && DistinctIds(list) && PositiveIds(list)
    ensures (exists n :: CompleteRunScan(pages, n)) <==> |list| < 1000
    ensures forall n | CompleteRunScan(pages, n) :: Gathered(pages, n) == list
  {
    hide Gathered, PageOf;
    forall n | CompleteRunScan(pages, n) ensures Gathered(pages, n) == list && |list| < 1000 {
      GatheredFromList(pages, list, n);
      PageLength(list, n - 1);
    }
    if |list| < 1000 {
      var n := |list| / PER_PAGE + 1;
      forall p | 0 <= p < n ensures |pages[p].rows| == PER_PAGE <==> p < n - 1 { PageLength(list, p); }
      GatheredFromList(pages, list, n);
      PageLength(list, n - 1);
      assert CompleteRunScan(pages, n);
    }
  }
}
