/** Reading the audit trail a page at a time while it grows. */
module AuditPaging {
  import opened Common

  datatype Row = Row(id: nat, at: int, event: string, actor: Option<string>, target: Option<string>)

  type Log = seq<Row>

  /** Blank strings count as not given. */
  datatype Filter = Filter(
    actor: string, target: string, event: string, from: Option<int>, to: Option<int>, limit: Option<int>,
    cursor: Option<nat>)

  datatype Page = Page(events: seq<Row>, nextCursor: Option<nat>)

  const MAX_LIMIT := 200
  const DEFAULT_LIMIT := 50

  function LimitOf(f: Filter): (n: nat)
    ensures 1 <= n <= MAX_LIMIT
  {
    var asked := if f.limit.Some? then f.limit.value else DEFAULT_LIMIT;
    if asked < 1 then 1 else if asked > MAX_LIMIT then MAX_LIMIT else asked
  }

  /** A trailing dot names a family of events. */
  predicate EventMatches(wanted: string, event: string)
    requires wanted != ""
  {
    if wanted[|wanted| - 1] == '.' then wanted <= event else wanted == event
  }

  predicate Matches(f: Filter, r: Row) {
    && (f.actor != "" ==> r.actor == Some(f.actor))
    && (f.target != "" ==> r.target == Some(f.target))
    && (f.event != "" ==> EventMatches(f.event, r.event))
    && (f.from.Some? ==> f.from.value <= r.at)
    && (f.to.Some? ==> r.at <= f.to.value)
  }

  predicate Below(cursor: Option<nat>, r: Row) {
    cursor.Some? ==> r.id < cursor.value
  }

  /** Ids are handed out upwards and rows are never changed or removed. */
  ghost predicate WellFormed(log: Log) {
    forall i, j :: 0 <= i < j < |log| ==> log[i].id < log[j].id
  }

  /** The rows that match, newest first. */
  function Matching(log: Log, f: Filter, cursor: Option<nat>): seq<Row> {
    if log == [] then []
    else
      var r, older := log[|log| - 1], Matching(log[..|log| - 1], f, cursor);
      if Matches(f, r) && Below(cursor, r) then [r] + older else older
  }

  function PageOf(log: Log, f: Filter): Page {
    var rows, limit := Matching(log, f, f.cursor), LimitOf(f);
    if |rows| > limit then Page(rows[..limit], Some(rows[limit - 1].id)) else Page(rows, None)
  }

  lemma NextOlder(log: Log, f: Filter, cursor: Option<nat>, i: nat)
    requires i < |log|
    ensures Matching(log[..i + 1], f, cursor) == OneRow(f, cursor, log[i]) + Matching(log[..i], f, cursor)
  {
    assert log[..i + 1][..i] == log[..i];
  }

  function OneRow(f: Filter, cursor: Option<nat>, r: Row): seq<Row> {
    if Matches(f, r) && Below(cursor, r) then [r] else []
  }

  lemma Regroup<T>(a: seq<T>, b: seq<T>, c: seq<T>)
    ensures a + (b + c) == (a + b) + c
  {
  }

  lemma Prefix<T>(a: seq<T>, b: seq<T>, take: nat)
    requires |a| == take || (|a| <= take && b == [])
    ensures a == if |a + b| > take then (a + b)[..take] else a + b
  {
  }

  /** The newest matching rows, one more than the page holds if there are that many. */
  method NewestRows(log: Log, f: Filter, take: nat) returns (rows: seq<Row>)
    ensures var all := Matching(log, f, f.cursor); rows == if |all| > take then all[..take] else all
  {
    rows := [];
    var i := |log|;
    ghost var all := Matching(log, f, f.cursor);
    ghost var older := all;
    assert log[..i] == log;
    while i > 0 && |rows| < take
      invariant 0 <= i <= |log| && |rows| <= take
      invariant all == rows + older && older == Matching(log[..i], f, f.cursor)
    {
      i := i - 1;
      NextOlder(log, f, f.cursor, i);
      older := Matching(log[..i], f, f.cursor);
      Regroup(rows, OneRow(f, f.cursor, log[i]), older);
      rows := rows + OneRow(f, f.cursor, log[i]);
    }
    Prefix(rows, older, take);
  }

  method SearchAudit(log: Log, f: Filter) returns (page: Page)
    ensures page == PageOf(log, f)
  {
    var limit := LimitOf(f);
    var rows := NewestRows(log, f, limit + 1);
    var shown := if |rows| > limit then rows[..limit] else rows;
    page := Page(shown, if |rows| > limit then Some(shown[limit - 1].id) else None);
  }

  // ---- what a page shows ----

  ghost predicate Descending(rows: seq<Row>) {
    forall i, j :: 0 <= i < j < |rows| ==> rows[i].id > rows[j].id
  }

  /** Exactly the matching rows, each once, strictly newest first. */
  lemma {:induction false} MatchingIsExact(log: Log, f: Filter, cursor: Option<nat>)
    requires WellFormed(log)
    ensures Descending(Matching(log, f, cursor))
    ensures forall r :: r in Matching(log, f, cursor) <==> r in log && Matches(f, r) && Below(cursor, r)
  {
    if log == [] {
    } else {
      var init, last := log[..|log| - 1], log[|log| - 1];
      MatchingIsExact(init, f, cursor);
      forall r | r in Matching(init, f, cursor) ensures r.id < last.id {
        assert r in init;
      }
      assert log == init + [last];
    }
  }

  /** Rows appended later lie above every cursor already handed out. */
  lemma {:induction false} GrowthIsAboveTheCursor(log: Log, more: Log, f: Filter, c: nat)
    requires WellFormed(more) && log <= more
    requires forall i :: |log| <= i < |more| ==> more[i].id >= c
    ensures Matching(more, f, Some(c)) == Matching(log, f, Some(c))
    decreases |more|
  {
    if |more| == |log| {
      assert more == log;
    } else {
      var init := more[..|more| - 1];
      assert log <= init;
      GrowthIsAboveTheCursor(log, init, f, c);
    }
  }

  /** Asking again below the `k`-th row gives what came after it. */
  lemma {:induction false} CursorResumes(log: Log, f: Filter, cursor: Option<nat>, k: nat)
    requires WellFormed(log) && 0 < k <= |Matching(log, f, cursor)|
    ensures Matching(log, f, Some(Matching(log, f, cursor)[k - 1].id)) == Matching(log, f, cursor)[k..]
  {
    var rows, init, last := Matching(log, f, cursor), log[..|log| - 1], log[|log| - 1];
    RowIsThere(log, f, cursor, k - 1);
    if !(Matches(f, last) && Below(cursor, last)) {
      CursorResumes(init, f, cursor, k);
    } else if k == 1 {
      LowerCursorKeeps(init, f, cursor, last.id);
    } else {
      assert rows[k - 1] == Matching(init, f, cursor)[k - 2];
      RowIsThere(init, f, cursor, k - 2);
      CursorResumes(init, f, cursor, k - 1);
    }
  }

  lemma RowIsThere(log: Log, f: Filter, cursor: Option<nat>, k: nat)
    requires WellFormed(log) && k < |Matching(log, f, cursor)|
    ensures var r := Matching(log, f, cursor)[k];
      r in log && Below(cursor, r) && r.id <= log[|log| - 1].id
  {
    MatchingIsExact(log, f, cursor);
    assert Matching(log, f, cursor)[k] in Matching(log, f, cursor);
  }

  /** A cursor above everything in the log filters nothing more. */
  lemma {:induction false} LowerCursorKeeps(log: Log, f: Filter, cursor: Option<nat>, c: nat)
    requires forall i :: 0 <= i < |log| ==> log[i].id < c
    requires cursor.Some? ==> c <= cursor.value
    ensures Matching(log, f, Some(c)) == Matching(log, f, cursor)
  {
    if log != [] {
      LowerCursorKeeps(log[..|log| - 1], f, cursor, c);
    }
  }

  // ---- what a filter asks for, and what a page holds ----

  const EVERYTHING := Filter("", "", "", None, None, None, None)

  /** Each condition alone: whose action, on whom, which event or family of events, and when. */
  lemma ConditionsAlone(r: Row, who: string, n: int)
    requires who != ""
    ensures Matches(EVERYTHING, r)
    ensures Matches(EVERYTHING.(actor := who), r) <==> r.actor == Some(who)
    ensures Matches(EVERYTHING.(target := who), r) <==> r.target == Some(who)
    ensures Matches(EVERYTHING.(from := Some(n)), r) <==> r.at >= n
    ensures Matches(EVERYTHING.(to := Some(n)), r) <==> r.at <= n
    ensures who[|who| - 1] != '.' ==> (Matches(EVERYTHING.(event := who), r) <==> r.event == who)
    ensures Matches(EVERYTHING.(event := who + "."), r)
      <==> |r.event| > |who| && r.event[..|who|] == who && r.event[|who|] == '.'
  {
    var family := who + ".";
    assert family[|family| - 1] == '.';
    if family <= r.event {
      assert r.event[..|who|] == family[..|who|] == who;
    }
    if |r.event| > |who| && r.event[..|who|] == who && r.event[|who|] == '.' {
      assert r.event[..|family|] == family;
    }
  }

  /** A filter asks for the rows that meet each of its conditions. */
  lemma ConditionsTogether(f: Filter, r: Row)
    ensures Matches(f, r) <==>
      && Matches(EVERYTHING.(actor := f.actor), r) && Matches(EVERYTHING.(target := f.target), r)
      && Matches(EVERYTHING.(event := f.event), r)
      && Matches(EVERYTHING.(from := f.from), r) && Matches(EVERYTHING.(to := f.to), r)
  {
  }

  /** A page shows as many rows as were asked for, if there are that many; 50 unless asked, and 1 to 200 at the ends. */
  lemma PageHolds(log: Log, f: Filter)
    ensures var shown, there := |PageOf(log, f).events|, |Matching(log, f, f.cursor)|;
      && (f.limit.Some? && 1 <= f.limit.value <= 200 ==>
            shown == if there < f.limit.value then there else f.limit.value)
      && (f.limit.None? ==> shown == if there < 50 then there else 50)
      && (f.limit.Some? && f.limit.value < 1 ==> shown == if there < 1 then there else 1)
      && (f.limit.Some? && f.limit.value > 200 ==> shown == if there < 200 then there else 200)
      && (PageOf(log, f).nextCursor.Some? <==> shown < there)
  {
  }

  // ---- following the cursor while the log grows ----

  /** The log as each request of one reader finds it. */
  ghost predicate Growing(views: seq<Log>) {
    && (forall i :: 0 <= i < |views| ==> WellFormed(views[i]))
    && (forall i :: 0 < i < |views| ==> views[i - 1] <= views[i])
  }

  /** All the rows a reader collects by following `nextCursor`, one request for each view. */
  function Followed(views: seq<Log>, f: Filter): seq<Row> {
    if views == [] then []
    else
      var page := PageOf(views[0], f);
      if page.nextCursor.None? then page.events
      else page.events + Followed(views[1..], f.(cursor := page.nextCursor))
  }

  /** The reader was told that there is no next page. */
  predicate Ended(views: seq<Log>, f: Filter) {
    views != [] &&
    var page := PageOf(views[0], f);
    page.nextCursor.None? || Ended(views[1..], f.(cursor := page.nextCursor))
  }

  lemma {:induction false} FollowFrom(views: seq<Log>, f: Filter)
    requires views != [] && Growing(views)
    requires |views| * LimitOf(f) >= |Matching(views[0], f, f.cursor)|
    ensures Ended(views, f) && Followed(views, f) == Matching(views[0], f, f.cursor)
    decreases |views|
  {
    var rows, limit := Matching(views[0], f, f.cursor), LimitOf(f);
    if |rows| > limit {
      OnePageLess(|views|, limit, |rows|);
      var g := f.(cursor := PageOf(views[0], f).nextCursor);
      NextPage(views, f, g);
      FollowFrom(views[1..], g);
    }
  }

  lemma OnePageLess(pages: nat, limit: nat, rows: nat)
    requires pages * limit >= rows > limit
    ensures pages > 1 && (pages - 1) * limit >= rows - limit
  {
    assert (pages - 1) * limit == pages * limit - limit;
  }

  /** The next request finds what the first one left over. */
  lemma NextPage(views: seq<Log>, f: Filter, g: Filter)
    requires |views| > 1 && Growing(views) && |Matching(views[0], f, f.cursor)| > LimitOf(f)
    requires g == f.(cursor := PageOf(views[0], f).nextCursor)
    ensures Matching(views[1], g, g.cursor) == Matching(views[0], f, f.cursor)[LimitOf(f)..]
  {
    var rows, limit := Matching(views[0], f, f.cursor), LimitOf(f);
    var c := rows[limit - 1].id;
    CursorResumes(views[0], f, f.cursor, limit);
    NextView(views, f, c, rows[limit - 1]);
    SameFilter(views[1], f, g, Some(c));
  }

  /** Below a row of the first view, the second view matches the same rows. */
  lemma NextView(views: seq<Log>, f: Filter, c: nat, r: Row)
    requires |views| > 1 && Growing(views)
    requires r in Matching(views[0], f, f.cursor) && c == r.id
    ensures Matching(views[1], f, Some(c)) == Matching(views[0], f, Some(c))
  {
    MatchingIsExact(views[0], f, f.cursor);
    var k :| 0 <= k < |views[0]| && views[0][k] == r;
    assert views[0] <= views[1];
    assert views[1][k] == r;
    GrowthIsAboveTheCursor(views[0], views[1], f, c);
  }

  /** The cursor inside the filter does not matter to what matches. */
  lemma {:induction false} SameFilter(log: Log, f: Filter, g: Filter, cursor: Option<nat>)
    requires g == f.(cursor := g.cursor)
    ensures Matching(log, f, cursor) == Matching(log, g, cursor)
  {
    if log != [] {
      SameFilter(log[..|log| - 1], f, g, cursor);
    }
  }

  /**
   * Paging is exact. With enough requests for the pages there were at the first one, following
   * `nextCursor` comes to an end, and collects precisely the matching rows present at the first
   * request, strictly newest first, none missed and none repeated, for every filter and limit and
   * whatever is appended in between.
   */
  lemma PagingIsExact(views: seq<Log>, f: Filter)
    requires views != [] && Growing(views) && f.cursor.None?
    requires |views| * LimitOf(f) >= |Matching(views[0], f, None)|
    ensures Ended(views, f)
    ensures Descending(Followed(views, f))
    ensures forall r :: r in Followed(views, f) <==> r in views[0] && Matches(f, r)
  {
    FollowFrom(views, f);
    MatchingIsExact(views[0], f, None);
  }
}
