/**
 * Keyset pagination of the audit log (core/audit.py): pages in descending (occurred_at, id), each read from the log
 * as it is at that moment, with events appended in between.
 */
module AuditPaging {
  import opened Wrappers
  import opened Ordering

  datatype Event = Event(occurredAt: int, id: string, tenant: string, action: string, outcome: string, actor: string)

  /** The filters of a request; the empty text means no filter. */
  datatype Query = Query(tenant: string, action: string, outcome: string, actor: string)

  /** What a cursor encodes: the key of the last event of a page. */
  datatype Cursor = Cursor(occurredAt: int, id: string)

  datatype Page = Page(events: seq<Event>, next: Option<Cursor>)

  datatype PageError = BadLimit

  predicate After(t: int, id: string, u: int, jd: string) {
    t > u || (t == u && TextLess(jd, id))
  }

  /** `e` comes before `f` in a page. */
  predicate Newer(e: Event, f: Event) {
    After(e.occurredAt, e.id, f.occurredAt, f.id)
  }

  predicate Below(e: Event, cursor: Option<Cursor>) {
    cursor.Some? ==> After(cursor.value.occurredAt, cursor.value.id, e.occurredAt, e.id)
  }

  predicate Matches(e: Event, q: Query) {
    && e.tenant == q.tenant
    && (q.action != "" ==> e.action == q.action)
    && (q.outcome != "" ==> e.outcome == q.outcome)
    && (q.actor != "" ==> e.actor == q.actor)
  }

  function Filter(log: seq<Event>, q: Query, cursor: Option<Cursor>): seq<Event>
    decreases |log|
  {
    if |log| == 0 then []
    else (if Matches(log[0], q) && Below(log[0], cursor) then [log[0]] else []) + Filter(log[1..], q, cursor)
  }

  /** The whole answer of the statement without its limit. */
  function Selected(log: seq<Event>, q: Query, cursor: Option<Cursor>): seq<Event> {
    Sort(Newer, Filter(log, q, cursor))
  }

  function KeyOf(e: Event): Cursor {
    Cursor(e.occurredAt, e.id)
  }

  function ReadPage(log: seq<Event>, q: Query, limit: nat, cursor: Option<Cursor>): Page {
    var rows := Selected(log, q, cursor);
    var records := if |rows| <= limit + 1 then rows else rows[..limit + 1];
    var page := if |records| <= limit then records else records[..limit];
    Page(page, if |records| > limit && page != [] then Some(KeyOf(page[|page| - 1])) else None)
  }

  // ---------- a client following the cursors ----------

  /** The events of all pages, page `i` read from `logs[i]`. */
  function Follow(logs: seq<seq<Event>>, q: Query, limit: nat, cursor: Option<Cursor>): seq<Event>
    decreases |logs|
  {
    if |logs| == 0 then []
    else
      var page := ReadPage(logs[0], q, limit, cursor);
      page.events + if page.next.None? then [] else Follow(logs[1..], q, limit, page.next)
  }

  /** The last of these reads returned no further cursor. */
  predicate Finishes(logs: seq<seq<Event>>, q: Query, limit: nat, cursor: Option<Cursor>)
    decreases |logs|
  {
    |logs| > 0 &&
    var page := ReadPage(logs[0], q, limit, cursor);
    page.next.None? || Finishes(logs[1..], q, limit, page.next)
  }

  /** Ids are the primary key. */
  predicate UniqueIds(log: seq<Event>) {
    forall i, j | 0 <= i < j < |log| :: log[i].id != log[j].id
  }

  predicate Within(a: seq<Event>, b: seq<Event>) {
    forall e | e in a :: e in b
  }

  /** Events are only ever added. */
  predicate Grows(logs: seq<seq<Event>>)
    decreases |logs|
  {
    |logs| == 0 || (UniqueIds(logs[0]) && (|logs| > 1 ==> Within(logs[0], logs[1])) && Grows(logs[1..]))
  }

  // ---------- one page ----------

  lemma AfterOrders(t: int, i: string, u: int, j: string, v: int, k: string)
    ensures !After(t, i, t, i)
    ensures After(t, i, u, j) ==> !After(u, j, t, i)
    ensures After(t, i, u, j) || After(u, j, t, i) || (t == u && i == j)
    ensures After(t, i, u, j) && After(u, j, v, k) ==> After(t, i, v, k)
  {
    TextLessTotal(i, j);
    TextLessTotal(i, i);
    if TextLess(k, j) && TextLess(j, i) { TextLessTransitive(k, j, i); }
  }

  lemma NewerOrders(e: Event, f: Event, g: Event)
    ensures !Newer(e, e)
    ensures Newer(e, f) ==> !Newer(f, e)
    ensures Newer(e, f) || Newer(f, e) || KeyOf(e) == KeyOf(f)
    ensures Newer(e, f) && Newer(f, g) ==> Newer(e, g)
  {
    AfterOrders(e.occurredAt, e.id, f.occurredAt, f.id, g.occurredAt, g.id);
  }

  lemma NewerTies(e: Event, f: Event, g: Event)
    requires !Newer(f, e) && !Newer(g, f)
    ensures !Newer(g, e)
  {
    NewerOrders(e, f, g);
    NewerOrders(f, g, e);
    NewerOrders(g, e, f);
  }

  lemma NewerRanks()
    ensures Ranks(Newer)
  {
    forall e, f ensures !Newer(e, e) && (Newer(e, f) ==> !Newer(f, e)) { NewerOrders(e, f, e); }
    forall e, f, g | !Newer(f, e) && !Newer(g, f) ensures !Newer(g, e) { NewerTies(e, f, g); }
  }

  lemma {:induction false} FilterMembers(log: seq<Event>, q: Query, cursor: Option<Cursor>, e: Event)
    ensures e in Filter(log, q, cursor) <==> e in log && Matches(e, q) && Below(e, cursor)
    decreases |log|
  {
    if |log| > 0 {
      FilterMembers(log[1..], q, cursor, e);
      assert log == [log[0]] + log[1..];
    }
  }

  lemma {:induction false} FilterUnique(log: seq<Event>, q: Query, cursor: Option<Cursor>)
    requires UniqueIds(log)
    ensures UniqueIds(Filter(log, q, cursor))
    decreases |log|
  {
    if |log| > 0 {
      var rest := Filter(log[1..], q, cursor);
      FilterUnique(log[1..], q, cursor);
      forall i | 0 <= i < |rest| ensures rest[i].id != log[0].id {
        FilterMembers(log[1..], q, cursor, rest[i]);
      }
    }
  }

  lemma {:induction false} InsertUnique(s: seq<Event>, x: Event)
    requires UniqueIds(s) && forall i | 0 <= i < |s| :: s[i].id != x.id
    ensures UniqueIds(Insert(Newer, s, x))
    decreases |s|
  {
    if |s| > 0 && !Newer(x, s[0]) {
      var rest := Insert(Newer, s[1..], x);
      InsertUnique(s[1..], x);
      InsertMembers(Newer, s[1..], x);
      forall i | 0 <= i < |rest| ensures rest[i].id != s[0].id {
        assert rest[i] in multiset(rest);
        assert rest[i] == x || rest[i] in s[1..];
      }
    }
  }

  lemma {:induction false} SortUnique(s: seq<Event>)
    requires UniqueIds(s)
    ensures UniqueIds(Sort(Newer, s))
    decreases |s|
  {
    if |s| > 0 {
      var init, x := s[..|s| - 1], s[|s| - 1];
      var sorted := Sort(Newer, init);
      SortUnique(init);
      forall i | 0 <= i < |sorted| ensures sorted[i].id != x.id {
        SortContains(Newer, init, sorted[i]);
        assert sorted[i] in init;
      }
      InsertUnique(sorted, x);
    }
  }

  /** The unlimited answer: exactly the matching events below the cursor, strictly descending. */
  lemma SelectedFacts(log: seq<Event>, q: Query, cursor: Option<Cursor>)
    requires UniqueIds(log)
    ensures Strict(Newer, Selected(log, q, cursor))
    ensures forall e :: e in Selected(log, q, cursor) <==> e in log && Matches(e, q) && Below(e, cursor)
  {
    var f := Filter(log, q, cursor);
    var s := Selected(log, q, cursor);
    FilterUnique(log, q, cursor);
    SortUnique(f);
    NewerRanks();
    SortDescending(Newer, f);
    forall i, j | 0 <= i < j < |s| ensures Newer(s[i], s[j]) {
      NewerOrders(s[i], s[j], s[i]);
    }
    forall e ensures e in s <==> e in log && Matches(e, q) && Below(e, cursor) {
      SortContains(Newer, f, e);
      FilterMembers(log, q, cursor, e);
    }
  }

  /** The look-ahead row only decides whether there is a next page. */
  lemma PageForm(log: seq<Event>, q: Query, limit: nat, cursor: Option<Cursor>)
    requires limit > 0
    ensures var rows := Selected(log, q, cursor);
      ReadPage(log, q, limit, cursor)
      == if |rows| <= limit then Page(rows, None) else Page(rows[..limit], Some(KeyOf(rows[limit - 1])))
  {
    var rows := Selected(log, q, cursor);
    if |rows| > limit + 1 {
      assert rows[..limit + 1][..limit] == rows[..limit];
    }
  }

  /** `list_audit_events`: an error outside 1 to 200, else at most `limit` events, and as many if there is a next page. */
  function ListAuditEvents(log: seq<Event>, q: Query, limit: int, cursor: Option<Cursor>): (r: Result<Page, PageError>)
    ensures r.Err? <==> limit < 1 || limit > 200
    ensures r.Ok? ==> |r.value.events| <= limit && (r.value.next.Some? ==> |r.value.events| == limit)
  {
    if !(1 <= limit <= 200) then Err(BadLimit)
    else
      PageForm(log, q, limit, cursor);
      Ok(ReadPage(log, q, limit, cursor))
  }

  /** A page and what it leaves: together all that is selected, split where the next cursor points. */
  lemma PageSplits(log: seq<Event>, q: Query, limit: nat, cursor: Option<Cursor>)
    requires UniqueIds(log) && limit > 0
    ensures var p := ReadPage(log, q, limit, cursor);
      && Strict(Newer, p.events)
      && (forall e | e in p.events :: e in log && Matches(e, q) && Below(e, cursor))
      && (p.next.None? ==> p.events == Selected(log, q, cursor))
      && (p.next.Some? ==>
            p.events != [] && p.next.value == KeyOf(p.events[|p.events| - 1])
            && forall e | e in log && Matches(e, q) && Below(e, cursor) :: e in p.events || Below(e, p.next))
  {
    SelectedFacts(log, q, cursor);
    var rows := Selected(log, q, cursor);
    var p := ReadPage(log, q, limit, cursor);
    if p.next.Some? {
      assert p.events == rows[..limit];
      forall e | e in log && Matches(e, q) && Below(e, cursor) ensures e in p.events || Below(e, p.next) {
        var i :| 0 <= i < |rows| && rows[i] == e;
        if i < limit {
          assert p.events[i] == e;
        } else {
          assert Newer(rows[limit - 1], rows[i]);
        }
      }
    } else {
      assert p.events == rows;
    }
  }

  // ---------- all pages ----------

  lemma BelowLower(e: Event, low: Event, cursor: Option<Cursor>)
    requires Below(low, cursor) && Newer(low, e)
    ensures Below(e, cursor)
  {
    if cursor.Some? {
      AfterOrders(cursor.value.occurredAt, cursor.value.id, low.occurredAt, low.id, e.occurredAt, e.id);
    }
  }

  lemma StrictConcat(a: seq<Event>, b: seq<Event>)
    requires Strict(Newer, a) && Strict(Newer, b)
    requires a != [] && forall e | e in b :: Newer(a[|a| - 1], e)
    ensures Strict(Newer, a + b)
  {
    forall i, j | 0 <= i < j < |a + b| ensures Newer((a + b)[i], (a + b)[j]) {
      if i < |a| <= j {
        assert b[j - |a|] in b;
        NewerOrders(a[i], a[|a| - 1], b[j - |a|]);
      }
    }
  }

  lemma GrowsTail(logs: seq<seq<Event>>, e: Event)
    requires Grows(logs) && |logs| > 1 && e in logs[0]
    ensures e in logs[1..][0]
  {
  }

  /**
   * Whatever is appended between the reads: the pages come in strictly descending order, so no event twice; every
   * event returned matches; and every matching event that was there at the first read is returned.
   */
  lemma {:induction false} PagingComplete(logs: seq<seq<Event>>, q: Query, limit: nat, cursor: Option<Cursor>)
    requires limit > 0 && Grows(logs) && Finishes(logs, q, limit, cursor)
    ensures var r := Follow(logs, q, limit, cursor);
      && Strict(Newer, r)
      && (forall e | e in r :: Matches(e, q) && Below(e, cursor))
      && (forall e | e in logs[0] && Matches(e, q) && Below(e, cursor) :: e in r)
    decreases |logs|
  {
    var p := ReadPage(logs[0], q, limit, cursor);
    PageSplits(logs[0], q, limit, cursor);
    SelectedFacts(logs[0], q, cursor);
    if p.next.Some? {
      var rest := Follow(logs[1..], q, limit, p.next);
      var low := p.events[|p.events| - 1];
      PagingComplete(logs[1..], q, limit, p.next);
      assert forall e | e in rest :: Newer(low, e);
      StrictConcat(p.events, rest);
      assert low in p.events;
      forall e | e in rest ensures Below(e, cursor) { BelowLower(e, low, cursor); }
      forall e | e in logs[0] && Matches(e, q) && Below(e, cursor) ensures e in p.events + rest {
        if e !in p.events { GrowsTail(logs, e); }
      }
    } else {
      assert p.events + [] == p.events;
    }
  }

  /** Nothing is returned that was not in the log by the last read. */
  lemma {:induction false} PagingSound(logs: seq<seq<Event>>, q: Query, limit: nat, cursor: Option<Cursor>)
    requires limit > 0 && Grows(logs) && |logs| > 0
    ensures forall e | e in Follow(logs, q, limit, cursor) :: e in logs[|logs| - 1]
    decreases |logs|
  {
    var p := ReadPage(logs[0], q, limit, cursor);
    PageSplits(logs[0], q, limit, cursor);
    forall e | e in p.events ensures e in logs[|logs| - 1] { StaysInLog(logs, e); }
    if p.next.Some? && |logs| > 1 { PagingSound(logs[1..], q, limit, p.next); }
  }

  /** The tenant's own events, with every filter given. */
  predicate Wanted(e: Event, tenant: string, action: string, outcome: string, actor: string) {
    && e.tenant == tenant && (action == "" || e.action == action)
    && (outcome == "" || e.outcome == outcome) && (actor == "" || e.actor == actor)
  }

  /** The later time first, and of equal times the greater id. */
  predicate LaterFirst(e: Event, f: Event) {
    e.occurredAt > f.occurredAt || (e.occurredAt == f.occurredAt && TextLess(f.id, e.id))
  }

  /** In terms of the events' fields: all pages together hold only events the request asks for, none of another tenant,
      the latest first, and all of those there at the first read. */
  lemma PagingFields(logs: seq<seq<Event>>, q: Query, limit: nat)
    requires limit > 0 && Grows(logs) && Finishes(logs, q, limit, None)
    ensures var r := Follow(logs, q, limit, None);
      && (forall e | e in r :: Wanted(e, q.tenant, q.action, q.outcome, q.actor))
      && (forall i, j | 0 <= i < j < |r| :: LaterFirst(r[i], r[j]))
      && (forall e | e in logs[0] && Wanted(e, q.tenant, q.action, q.outcome, q.actor) :: e in r)
  {
    PagingComplete(logs, q, limit, None);
    var r := Follow(logs, q, limit, None);
    forall i, j | 0 <= i < j < |r| ensures LaterFirst(r[i], r[j]) { assert Newer(r[i], r[j]); }
  }

  lemma {:induction false} StaysInLog(logs: seq<seq<Event>>, e: Event)
    requires Grows(logs) && |logs| > 0 && e in logs[0]
    ensures e in logs[|logs| - 1]
    decreases |logs|
  {
    if |logs| > 1 { StaysInLog(logs[1..], e); }
  }

  // ---------- a log that does not change ----------

  function Repeat(log: seq<Event>, n: nat): seq<seq<Event>> {
    if n == 0 then [] else [log] + Repeat(log, n - 1)
  }

  lemma DropMembers(rows: seq<Event>, limit: nat, e: Event)
    requires Strict(Newer, rows) && 0 < limit <= |rows|
    ensures e in rows[limit..] <==> e in rows && Newer(rows[limit - 1], e)
  {
    if e in rows[limit..] {
      var i :| 0 <= i < |rows[limit..]| && rows[limit..][i] == e;
      assert e == rows[limit + i];
    }
    if e in rows && Newer(rows[limit - 1], e) {
      var i :| 0 <= i < |rows| && rows[i] == e;
      NewerOrders(rows[limit - 1], rows[limit - 1], e);
      NewerOrders(rows[limit - 1], e, e);
      assert rows[limit..][i - limit] == e;
    }
  }

  /** The events left below a page are the ones after it. */
  lemma LeftAfterPage(log: seq<Event>, q: Query, limit: nat, cursor: Option<Cursor>)
    requires UniqueIds(log) && limit > 0 && ReadPage(log, q, limit, cursor).next.Some?
    ensures |Selected(log, q, cursor)| > limit
    ensures Selected(log, q, ReadPage(log, q, limit, cursor).next) == Selected(log, q, cursor)[limit..]
  {
    var rows := Selected(log, q, cursor);
    var next := ReadPage(log, q, limit, cursor).next;
    var low := rows[limit - 1];
    SelectedFacts(log, q, cursor);
    SelectedFacts(log, q, next);
    PageForm(log, q, limit, cursor);
    assert low in rows;
    forall e ensures e in Selected(log, q, next) <==> e in rows[limit..] {
      DropMembers(rows, limit, e);
      if Newer(low, e) { BelowLower(e, low, cursor); }
    }
    NewerRanks();
    SameOrder(Newer, Selected(log, q, next), rows[limit..]);
  }

  /** One read of a log that does not change. */
  lemma RepeatStep(log: seq<Event>, q: Query, limit: nat, cursor: Option<Cursor>, n: nat)
    requires n > 0
    ensures var p := ReadPage(log, q, limit, cursor);
      && Follow(Repeat(log, n), q, limit, cursor)
         == (if p.next.None? then p.events else p.events + Follow(Repeat(log, n - 1), q, limit, p.next))
      && (Finishes(Repeat(log, n), q, limit, cursor) <==> p.next.None? || Finishes(Repeat(log, n - 1), q, limit, p.next))
  {
    var logs := Repeat(log, n);
    assert |logs| > 0 && logs[0] == log && logs[1..] == Repeat(log, n - 1);
    assert [] + ReadPage(log, q, limit, cursor).events == ReadPage(log, q, limit, cursor).events + [];
  }

  /** A page and all that is selected below it are all that was selected. */
  lemma PageThenRest(log: seq<Event>, q: Query, limit: nat, cursor: Option<Cursor>)
    requires UniqueIds(log) && limit > 0
    ensures var p := ReadPage(log, q, limit, cursor);
      var all := Selected(log, q, cursor);
      if p.next.None? then p.events == all
      else p.events + Selected(log, q, p.next) == all && |Selected(log, q, p.next)| < |all|
  {
    var rows := Selected(log, q, cursor);
    PageForm(log, q, limit, cursor);
    if |rows| > limit {
      LeftAfterPage(log, q, limit, cursor);
      assert rows[..limit] + rows[limit..] == rows;
    }
  }

  /** `n` reads of the log from the cursor on end, and give what is selected. */
  predicate ReadsAll(log: seq<Event>, q: Query, limit: nat, cursor: Option<Cursor>, n: nat) {
    && Finishes(Repeat(log, n), q, limit, cursor)
    && Follow(Repeat(log, n), q, limit, cursor) == Selected(log, q, cursor)
  }

  /** The first of the reads finishes, or leaves less for the others. */
  lemma ReadsNext(log: seq<Event>, q: Query, limit: nat, cursor: Option<Cursor>, n: nat) returns (done: bool, next: Option<Cursor>)
    requires UniqueIds(log) && limit > 0 && n > 0
    ensures done ==> ReadsAll(log, q, limit, cursor, n)
    ensures !done ==> |Selected(log, q, next)| < |Selected(log, q, cursor)|
    ensures !done && ReadsAll(log, q, limit, next, n - 1) ==> ReadsAll(log, q, limit, cursor, n)
  {
    next := ReadPage(log, q, limit, cursor).next;
    done := next.None?;
    RepeatStep(log, q, limit, cursor, n);
    PageThenRest(log, q, limit, cursor);
  }

  /** What does not hold in `m` steps does not hold in one less, from somewhere with less left. */
  ghost predicate Lessens<T(!new)>(left: T -> nat, holds: (T, nat) -> bool, y: T, m: nat) {
    m > 0 && !holds(y, m) ==> exists z :: left(z) < left(y) && !holds(z, m - 1)
  }

  lemma {:induction false} EnoughSteps<T(!new)>(left: T -> nat, holds: (T, nat) -> bool, x: T, n: nat)
    requires forall y, m: nat :: Lessens(left, holds, y, m)
    requires n > left(x)
    ensures holds(x, n)
    decreases n
  {
    assert Lessens(left, holds, x, n);
    if !holds(x, n) {
      var z :| left(z) < left(x) && !holds(z, n - 1);
      EnoughSteps(left, holds, z, n - 1);
    }
  }

  ghost function Left(log: seq<Event>, q: Query): Option<Cursor> -> nat {
    (c: Option<Cursor>) => |Selected(log, q, c)|
  }

  ghost function Reads(log: seq<Event>, q: Query, limit: nat): (Option<Cursor>, nat) -> bool {
    (c: Option<Cursor>, m: nat) => ReadsAll(log, q, limit, c, m)
  }

  lemma ReadsLessen(log: seq<Event>, q: Query, limit: nat, c: Option<Cursor>, m: nat)
    requires UniqueIds(log) && limit > 0
    ensures Lessens(Left(log, q), Reads(log, q, limit), c, m)
  {
    if m > 0 && !Reads(log, q, limit)(c, m) {
      var done, next := ReadsNext(log, q, limit, c, m);
      assert Left(log, q)(next) < Left(log, q)(c) && !Reads(log, q, limit)(next, m - 1);
    }
  }

  /** Paging a fixed log ends, after one read more than there are events at the latest, and has then returned all. */
  lemma FixedLogFinishes(log: seq<Event>, q: Query, limit: nat, cursor: Option<Cursor>, n: nat)
    requires UniqueIds(log) && limit > 0 && n > |Selected(log, q, cursor)|
    ensures ReadsAll(log, q, limit, cursor, n)
  {
    forall c, m: nat ensures Lessens(Left(log, q), Reads(log, q, limit), c, m) {
      ReadsLessen(log, q, limit, c, m);
    }
    EnoughSteps(Left(log, q), Reads(log, q, limit), cursor, n);
    assert Reads(log, q, limit)(cursor, n);
  }

  /** With nothing appended, the pages put together are the sorted filtered log. */
  lemma PagesAreTheLog(log: seq<Event>, q: Query, limit: nat, n: nat)
    requires UniqueIds(log) && limit > 0 && n > |log|
    ensures Finishes(Repeat(log, n), q, limit, None)
    ensures Follow(Repeat(log, n), q, limit, None) == Selected(log, q, None)
  {
    SelectedSize(log, q, None);
    FixedLogFinishes(log, q, limit, None, n);
  }

  // ---------- a log that only gets newer events ----------

  /** Every read sees the events of the first one, and besides them only newer ones. */
  predicate AppendsNewer(base: seq<Event>, log: seq<Event>) {
    UniqueIds(log) && Within(base, log) && forall e, f | e in log && e !in base && f in base :: Newer(e, f)
  }

  /** The cursor points at one of the first events, so what came later is above it. */
  predicate PointsInto(base: seq<Event>, cursor: Option<Cursor>) {
    cursor.Some? && exists f :: f in base && cursor.value == KeyOf(f)
  }

  lemma NewerIsAbove(base: seq<Event>, log: seq<Event>, cursor: Option<Cursor>, e: Event)
    requires AppendsNewer(base, log) && PointsInto(base, cursor) && e in log && Below(e, cursor)
    ensures e in base
  {
    var f :| f in base && cursor.value == KeyOf(f);
    NewerOrders(e, f, e);
  }

  lemma SameSelection(base: seq<Event>, log: seq<Event>, q: Query, cursor: Option<Cursor>)
    requires UniqueIds(base) && AppendsNewer(base, log) && PointsInto(base, cursor)
    ensures Selected(log, q, cursor) == Selected(base, q, cursor)
  {
    SelectedFacts(base, q, cursor);
    SelectedFacts(log, q, cursor);
    forall e ensures e in Selected(log, q, cursor) <==> e in Selected(base, q, cursor) {
      if e in log && Below(e, cursor) { NewerIsAbove(base, log, cursor, e); }
    }
    NewerRanks();
    SameOrder(Newer, Selected(log, q, cursor), Selected(base, q, cursor));
  }

  /** The next cursor points at an event of the page. */
  lemma NextPointsInto(base: seq<Event>, q: Query, limit: nat, cursor: Option<Cursor>)
    requires UniqueIds(base) && limit > 0
    ensures var next := ReadPage(base, q, limit, cursor).next; next.Some? ==> PointsInto(base, next)
  {
    var p := ReadPage(base, q, limit, cursor);
    PageSplits(base, q, limit, cursor);
    if p.next.Some? {
      var low := p.events[|p.events| - 1];
      assert low in p.events;
      assert low in base && p.next.value == KeyOf(low);
    }
  }

  predicate AllAppendNewer(base: seq<Event>, logs: seq<seq<Event>>) {
    forall i | 0 <= i < |logs| :: AppendsNewer(base, logs[i])
  }

  /** A client that follows the cursors reads what it would have read had nothing been appended. */
  predicate ReadsAlike(base: seq<Event>, logs: seq<seq<Event>>, q: Query, limit: nat, cursor: Option<Cursor>) {
    && Follow(logs, q, limit, cursor) == Follow(Repeat(base, |logs|), q, limit, cursor)
    && (Finishes(logs, q, limit, cursor) <==> Finishes(Repeat(base, |logs|), q, limit, cursor))
  }

  lemma AlikeNext(base: seq<Event>, logs: seq<seq<Event>>, q: Query, limit: nat, cursor: Option<Cursor>)
    requires |logs| > 0 && ReadPage(logs[0], q, limit, cursor) == ReadPage(base, q, limit, cursor)
    requires var next := ReadPage(base, q, limit, cursor).next; next.Some? ==> ReadsAlike(base, logs[1..], q, limit, next)
    ensures ReadsAlike(base, logs, q, limit, cursor)
  {
    RepeatStep(base, q, limit, cursor, |logs|);
    assert ReadPage(base, q, limit, cursor).events + [] == ReadPage(base, q, limit, cursor).events;
  }

  lemma {:induction false} LaterReadsAlike(base: seq<Event>, logs: seq<seq<Event>>, q: Query, limit: nat, cursor: Option<Cursor>)
    requires UniqueIds(base) && limit > 0 && AllAppendNewer(base, logs) && PointsInto(base, cursor)
    ensures ReadsAlike(base, logs, q, limit, cursor)
    decreases |logs|
  {
    if |logs| > 0 {
      var next := ReadPage(base, q, limit, cursor).next;
      SameSelection(base, logs[0], q, cursor);
      NextPointsInto(base, q, limit, cursor);
      if next.Some? { LaterReadsAlike(base, logs[1..], q, limit, next); }
      AlikeNext(base, logs, q, limit, cursor);
    }
  }

  /**
   * When every event appended between the reads is newer than all those of the first read, paging ends after one read
   * more than there were events to read, at the latest, and returns exactly those.
   */
  lemma GrowingLogFinishes(logs: seq<seq<Event>>, q: Query, limit: nat, cursor: Option<Cursor>)
    requires limit > 0 && |logs| > 0 && AllAppendNewer(logs[0], logs)
    requires |logs| > |Selected(logs[0], q, cursor)|
    ensures Finishes(logs, q, limit, cursor) && Follow(logs, q, limit, cursor) == Selected(logs[0], q, cursor)
  {
    var base := logs[0];
    assert AppendsNewer(base, logs[0]);
    var next := ReadPage(base, q, limit, cursor).next;
    NextPointsInto(base, q, limit, cursor);
    if next.Some? { LaterReadsAlike(base, logs[1..], q, limit, next); }
    AlikeNext(base, logs, q, limit, cursor);
    FixedLogFinishes(base, q, limit, cursor, |logs|);
  }

  lemma {:induction false} FilterSize(log: seq<Event>, q: Query, cursor: Option<Cursor>)
    ensures |Filter(log, q, cursor)| <= |log|
    decreases |log|
  {
    if |log| > 0 { FilterSize(log[1..], q, cursor); }
  }

  lemma SelectedSize(log: seq<Event>, q: Query, cursor: Option<Cursor>)
    ensures |Selected(log, q, cursor)| <= |log|
  {
    FilterSize(log, q, cursor);
    SortMembers(Newer, Filter(log, q, cursor));
    assert |multiset(Selected(log, q, cursor))| == |multiset(Filter(log, q, cursor))|;
  }
}
