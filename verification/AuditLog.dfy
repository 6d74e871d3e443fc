/** The in-memory audit log: filtered, cursor-paginated queries. */
module AuditLog {
  import opened Prelude
  import opened Audit

  const DEFAULT_PAGE_SIZE := 100

  /** Filter parameters, ANDed together; absent ones do not restrict. */
  datatype Query = Query(
    database: Option<string>,
    collection: Option<string>,
    collectionIds: seq<string>,
    entityId: Option<string>,
    actor: Option<string>,
    operation: Option<MutationType>,
    intentId: Option<string>,
    approvalId: Option<string>,
    sinceNs: Option<nat>,
    untilNs: Option<nat>,
    after: Option<nat>,
    limit: Option<nat>)

  const ALL := Query(None, None, [], None, None, None, None, None, None, None, None, None)

  datatype Page = Page(entries: seq<AuditEntry>, next: Option<nat>)

  /** Whether a collection name lies in a database, as the namespace parser decides. */
  type DatabaseTest = (string, string) -> bool

  function Allowed<T(==)>(wanted: Option<T>, actual: T): bool
  {
    wanted.Some? ==> actual == wanted.value
  }

  /** The union of the two collection filters; an empty one lets every collection pass. */
  function EffectiveCollections(q: Query): (r: seq<string>)
    ensures forall c :: c in r <==> c in q.collectionIds || q.collection == Some(c)
  {
    if q.collection.Some? && q.collection.value !in q.collectionIds then q.collectionIds + [q.collection.value]
    else q.collectionIds
  }

  /** The filters other than the cursor. */
  predicate Matches(inDatabase: DatabaseTest, q: Query, e: AuditEntry)
  {
    && (q.database.Some? ==> inDatabase(e.key.collection, q.database.value))
    && (EffectiveCollections(q) == [] || e.key.collection in EffectiveCollections(q))
    && Allowed(q.entityId, e.key.id)
    && Allowed(q.actor, e.actor)
    && Allowed(q.operation, e.mutation)
    && (q.intentId.Some? ==> e.lineage.Some? && e.lineage.value.intentId == q.intentId.value)
    && (q.approvalId.Some? ==> e.lineage.Some? && e.lineage.value.approvalId == q.approvalId)
    && (q.sinceNs.Some? ==> e.timestampNs >= q.sinceNs.value)
    && (q.untilNs.Some? ==> e.timestampNs <= q.untilNs.value)
  }

  function CursorOf(after: Option<nat>): nat
  {
    if after.Some? then after.value else 0
  }

  function LimitOf(q: Query): nat
  {
    if q.limit.Some? then q.limit.value else DEFAULT_PAGE_SIZE
  }

  /** The matching entries past a cursor, in log order. */
  function Found(inDatabase: DatabaseTest, q: Query, cursor: nat, entries: seq<AuditEntry>): seq<AuditEntry>
  {
    if entries == [] then []
    else
      var init := Found(inDatabase, q, cursor, entries[..|entries| - 1]);
      var e := entries[|entries| - 1];
      if e.id > cursor && Matches(inDatabase, q, e) then init + [e] else init
  }

  // ---- Sorting by id ----

  predicate AscendingIds(s: seq<AuditEntry>)
  {
    forall i, j :: 0 <= i < j < |s| ==> s[i].id < s[j].id
  }

  predicate NonDecreasingIds(s: seq<AuditEntry>)
  {
    forall i, j :: 0 <= i < j < |s| ==> s[i].id <= s[j].id
  }

  /** Places an entry behind the ones with the same id: the sort is stable. */
  function InsertById(s: seq<AuditEntry>, e: AuditEntry): seq<AuditEntry>
  {
    if s == [] then [e]
    else if s[|s| - 1].id <= e.id then s + [e]
    else InsertById(s[..|s| - 1], e) + [s[|s| - 1]]
  }

  function SortById(s: seq<AuditEntry>): seq<AuditEntry>
  {
    if s == [] then [] else InsertById(SortById(s[..|s| - 1]), s[|s| - 1])
  }

  lemma {:induction false} InsertAdds(s: seq<AuditEntry>, e: AuditEntry)
    ensures multiset(InsertById(s, e)) == multiset(s) + multiset{e}
    decreases |s|
  {
    if s != [] && s[|s| - 1].id > e.id {
      InsertAdds(s[..|s| - 1], e);
      assert s == s[..|s| - 1] + [s[|s| - 1]];
    }
  }

  lemma {:induction false} InsertedFrom(s: seq<AuditEntry>, e: AuditEntry, i: nat)
    requires i < |InsertById(s, e)|
    ensures InsertById(s, e)[i] == e || InsertById(s, e)[i] in s
    decreases |s|
  {
    if s != [] && s[|s| - 1].id > e.id && i < |InsertById(s[..|s| - 1], e)| { InsertedFrom(s[..|s| - 1], e, i); }
  }

  lemma {:induction false} InsertOrdered(s: seq<AuditEntry>, e: AuditEntry)
    requires NonDecreasingIds(s)
    ensures NonDecreasingIds(InsertById(s, e))
    decreases |s|
  {
    if s != [] {
      var init, last := s[..|s| - 1], s[|s| - 1];
      if last.id > e.id {
        InsertOrdered(init, e);
        var r := InsertById(init, e);
        forall i | 0 <= i < |r| ensures r[i].id <= last.id { InsertedFrom(init, e, i); }
      }
    }
  }

  /** The sort neither loses nor adds an entry. */
  lemma {:induction false} SortPermutes(s: seq<AuditEntry>)
    ensures multiset(SortById(s)) == multiset(s)
    decreases |s|
  {
    if s != [] {
      SortPermutes(s[..|s| - 1]);
      InsertAdds(SortById(s[..|s| - 1]), s[|s| - 1]);
      assert s == s[..|s| - 1] + [s[|s| - 1]];
    }
  }

  lemma {:induction false} SortOrders(s: seq<AuditEntry>)
    ensures NonDecreasingIds(SortById(s))
    decreases |s|
  {
    if s != [] {
      SortOrders(s[..|s| - 1]);
      InsertOrdered(SortById(s[..|s| - 1]), s[|s| - 1]);
    }
  }

  /** Sorting leaves an ordered list as it is. */
  lemma {:induction false} SortKeepsOrdered(s: seq<AuditEntry>)
    requires NonDecreasingIds(s)
    ensures SortById(s) == s
    decreases |s|
  {
    if s != [] {
      SortKeepsOrdered(s[..|s| - 1]);
      assert s == s[..|s| - 1] + [s[|s| - 1]];
    }
  }

  // ---- One page ----

  function Cut(found: seq<AuditEntry>, limit: nat): Page
  {
    if |found| > limit then Page(found[..limit], if limit > 0 then Some(found[limit - 1].id) else None)
    else Page(found, None)
  }

  function PageFrom(inDatabase: DatabaseTest, q: Query, cursor: nat, entries: seq<AuditEntry>): Page
  {
    Cut(SortById(Found(inDatabase, q, cursor, entries)), LimitOf(q))
  }

  /** The page a query returns. */
  function PageOf(inDatabase: DatabaseTest, q: Query, entries: seq<AuditEntry>): Page
  {
    PageFrom(inDatabase, q, CursorOf(q.after), entries)
  }

  class MemoryAuditLog {
    var entries: seq<AuditEntry>
    var nextId: nat
    const inDatabase: DatabaseTest

    function View(): Log
      reads this
    {
      Log(entries, nextId)
    }

    constructor (inDatabase: DatabaseTest)
      ensures View() == Log([], 0) && ValidLog(View()) && this.inDatabase == inDatabase
    {
      entries, nextId := [], 0;
      this.inDatabase := inDatabase;
    }

    method AppendEntry(entry: AuditEntry, now: nat) returns (stored: AuditEntry)
      requires ValidLog(View())
      modifies this
      ensures ValidLog(View())
      ensures nextId == old(nextId) + 1 && StoredAs(stored, entry, nextId) && stored.timestampNs == now
      ensures entries == old(entries) + [stored]
    {
      nextId := nextId + 1;
      stored := entry.(id := nextId, timestampNs := now);
      entries := entries + [stored];
    }

    method QueryPaginated(q: Query) returns (page: Page)
      ensures page == PageOf(inDatabase, q, entries)
    {
      var limit := if q.limit.Some? then q.limit.value else DEFAULT_PAGE_SIZE;
      var cursor := if q.after.Some? then q.after.value else 0;
      var filtered := FilterEntries(inDatabase, q, cursor, entries);
      filtered := SortById(filtered);
      var hasMore := |filtered| > limit;
      if hasMore { filtered := filtered[..limit]; }
      page := Page(filtered, if hasMore && filtered != [] then Some(filtered[|filtered| - 1].id) else None);
    }
  }

  method FilterEntries(inDatabase: DatabaseTest, q: Query, cursor: nat, entries: seq<AuditEntry>) returns (filtered: seq<AuditEntry>)
    ensures filtered == Found(inDatabase, q, cursor, entries)
  {
    filtered := [];
    for i := 0 to |entries|
      invariant filtered == Found(inDatabase, q, cursor, entries[..i])
    {
      assert entries[..i + 1][..i] == entries[..i];
      if entries[i].id > cursor && Matches(inDatabase, q, entries[i]) {
        filtered := filtered + [entries[i]];
      }
    }
    assert entries[..|entries|] == entries;
  }

  // ---- Following the cursor ----

  lemma {:induction false} FoundFrom(inDatabase: DatabaseTest, q: Query, cursor: nat, entries: seq<AuditEntry>)
    requires AscendingIds(entries)
    ensures AscendingIds(Found(inDatabase, q, cursor, entries))
    ensures forall e :: e in Found(inDatabase, q, cursor, entries) <==> e in entries && e.id > cursor && Matches(inDatabase, q, e)
    decreases |entries|
  {
    if entries != [] {
      var init, last := entries[..|entries| - 1], entries[|entries| - 1];
      FoundFrom(inDatabase, q, cursor, init);
      assert entries == init + [last];
      var found := Found(inDatabase, q, cursor, init);
      forall i | 0 <= i < |found| ensures found[i].id < last.id {
        assert found[i] in init;
        var k :| 0 <= k < |init| && init[k] == found[i];
      }
    }
  }

  lemma {:induction false} FoundExtends(inDatabase: DatabaseTest, q: Query, cursor: nat, a: seq<AuditEntry>, b: seq<AuditEntry>)
    requires a <= b
    ensures Found(inDatabase, q, cursor, a) <= Found(inDatabase, q, cursor, b)
    decreases |b|
  {
    if |a| < |b| {
      FoundExtends(inDatabase, q, cursor, a, b[..|b| - 1]);
    } else {
      assert a == b;
    }
  }

  /** Moving the cursor to the id of a found entry drops exactly the entries up to it. */
  lemma {:induction false} FoundPast(inDatabase: DatabaseTest, q: Query, cursor: nat, entries: seq<AuditEntry>, k: nat)
    requires AscendingIds(entries) && 0 < k <= |Found(inDatabase, q, cursor, entries)|
    ensures var found := Found(inDatabase, q, cursor, entries);
            Found(inDatabase, q, found[k - 1].id, entries) == found[k..]
    decreases |entries|
  {
    var found := Found(inDatabase, q, cursor, entries);
    var init, last := entries[..|entries| - 1], entries[|entries| - 1];
    var before := Found(inDatabase, q, cursor, init);
    assert entries == init + [last];
    if k <= |before| {
      assert found[k - 1] == before[k - 1];
      FoundPast(inDatabase, q, cursor, init, k);
      FoundFrom(inDatabase, q, cursor, init);
      assert before[k - 1] in init;
      var j :| 0 <= j < |init| && init[j] == before[k - 1];
    } else {
      assert found == before + [last] && k == |found|;
      NothingPast(inDatabase, q, last.id, entries);
    }
  }

  lemma {:induction false} NothingPast(inDatabase: DatabaseTest, q: Query, cursor: nat, entries: seq<AuditEntry>)
    requires forall i :: 0 <= i < |entries| ==> entries[i].id <= cursor
    ensures Found(inDatabase, q, cursor, entries) == []
    decreases |entries|
  {
    if entries != [] { NothingPast(inDatabase, q, cursor, entries[..|entries| - 1]); }
  }

  lemma {:induction false} ValidLogAscends(log: Log)
    requires ValidLog(log)
    ensures AscendingIds(log.entries)
  {
  }

  /** On a log in append order a page is the first part of what is found. */
  lemma {:induction false} PageIsPrefix(inDatabase: DatabaseTest, q: Query, cursor: nat, entries: seq<AuditEntry>)
    requires AscendingIds(entries)
    ensures PageFrom(inDatabase, q, cursor, entries) == Cut(Found(inDatabase, q, cursor, entries), LimitOf(q))
  {
    FoundFrom(inDatabase, q, cursor, entries);
    SortKeepsOrdered(Found(inDatabase, q, cursor, entries));
  }

  /** Following a cursor on a fixed log leaves exactly one page less to find. */
  lemma {:induction false} CursorAdvances(inDatabase: DatabaseTest, q: Query, cursor: nat, log: Log)
    requires ValidLog(log) && LimitOf(q) > 0
    ensures var page := PageFrom(inDatabase, q, cursor, log.entries);
            var left := |Found(inDatabase, q, cursor, log.entries)|;
            && (page.next.None? <==> left <= LimitOf(q))
            && (page.next.Some? ==> |Found(inDatabase, q, page.next.value, log.entries)| == left - LimitOf(q))
  {
    ValidLogAscends(log);
    PageIsPrefix(inDatabase, q, cursor, log.entries);
    if |Found(inDatabase, q, cursor, log.entries)| > LimitOf(q) {
      FoundPast(inDatabase, q, cursor, log.entries, LimitOf(q));
    }
  }

  /** Each log in the list extends the one before it. */
  ghost predicate Grows(logs: seq<Log>)
  {
    && (forall i :: 0 <= i < |logs| ==> ValidLog(logs[i]))
    && (forall i, j :: 0 <= i < j < |logs| ==> logs[i].entries <= logs[j].entries)
  }

  lemma {:induction false} GrowsTail(logs: seq<Log>)
    requires Grows(logs) && |logs| > 1
    ensures Grows(logs[1..]) && logs[1..][|logs| - 2] == logs[|logs| - 1] && logs[0].entries <= logs[|logs| - 1].entries
  {
  }

  /** One query per log, each from the cursor the one before returned, until there is none. */
  ghost predicate Walk(inDatabase: DatabaseTest, q: Query, cursor: nat, logs: seq<Log>)
    decreases |logs|
  {
    && logs != []
    && var next := PageFrom(inDatabase, q, cursor, logs[0].entries).next;
       if |logs| == 1 then next.None? else next.Some? && Walk(inDatabase, q, next.value, logs[1..])
  }

  ghost function Collected(inDatabase: DatabaseTest, q: Query, cursor: nat, logs: seq<Log>): seq<AuditEntry>
    decreases |logs|
  {
    if logs == [] then []
    else
      var page := PageFrom(inDatabase, q, cursor, logs[0].entries);
      page.entries + if page.next.Some? then Collected(inDatabase, q, page.next.value, logs[1..]) else []
  }

  lemma {:induction false} SameFilter(inDatabase: DatabaseTest, q: Query, after: Option<nat>, cursor: nat, entries: seq<AuditEntry>)
    ensures Found(inDatabase, q.(after := after), cursor, entries) == Found(inDatabase, q, cursor, entries)
    decreases |entries|
  {
    if entries != [] { SameFilter(inDatabase, q, after, cursor, entries[..|entries| - 1]); }
  }

  /** A later page of a walk is the query asked again with the returned cursor. */
  lemma {:induction false} NextQuery(inDatabase: DatabaseTest, q: Query, cursor: nat, entries: seq<AuditEntry>)
    ensures PageOf(inDatabase, q.(after := Some(cursor)), entries) == PageFrom(inDatabase, q, cursor, entries)
  {
    SameFilter(inDatabase, q, Some(cursor), cursor, entries);
  }

  /** What a page took from the log of its time comes first in every later log, the rest is past the cursor. */
  lemma {:induction false} PageThenRest(inDatabase: DatabaseTest, q: Query, cursor: nat, now: seq<AuditEntry>, later: seq<AuditEntry>)
    requires AscendingIds(now) && AscendingIds(later) && now <= later && LimitOf(q) > 0
    requires PageFrom(inDatabase, q, cursor, now).next.Some?
    ensures var page := PageFrom(inDatabase, q, cursor, now);
            Found(inDatabase, q, cursor, later) == page.entries + Found(inDatabase, q, page.next.value, later)
  {
    PageIsPrefix(inDatabase, q, cursor, now);
    FoundExtends(inDatabase, q, cursor, now, later);
    CutOfPrefix(Found(inDatabase, q, cursor, now), Found(inDatabase, q, cursor, later), LimitOf(q));
    FoundPast(inDatabase, q, cursor, later, LimitOf(q));
  }

  lemma {:induction false} CutOfPrefix(found: seq<AuditEntry>, more: seq<AuditEntry>, limit: nat)
    requires found <= more && limit > 0 && Cut(found, limit).next.Some?
    ensures limit < |more| && Cut(found, limit).next.value == more[limit - 1].id
    ensures more == Cut(found, limit).entries + more[limit..]
  {
    assert more[..limit] == found[..limit];
  }

  lemma {:induction false} WalkNext(inDatabase: DatabaseTest, q: Query, cursor: nat, logs: seq<Log>)
    requires |logs| > 1 && Walk(inDatabase, q, cursor, logs)
    ensures var page := PageFrom(inDatabase, q, cursor, logs[0].entries);
            && page.next.Some? && Walk(inDatabase, q, page.next.value, logs[1..])
            && Collected(inDatabase, q, cursor, logs) == page.entries + Collected(inDatabase, q, page.next.value, logs[1..])
  {
  }

  lemma {:induction false} WalkStep(inDatabase: DatabaseTest, q: Query, cursor: nat, logs: seq<Log>) returns (page: Page)
    requires |logs| > 1 && LimitOf(q) > 0 && Grows(logs) && Walk(inDatabase, q, cursor, logs)
    ensures page.next.Some? && Grows(logs[1..]) && Walk(inDatabase, q, page.next.value, logs[1..])
    ensures logs[1..][|logs[1..]| - 1] == logs[|logs| - 1]
    ensures Collected(inDatabase, q, cursor, logs) == page.entries + Collected(inDatabase, q, page.next.value, logs[1..])
    ensures Found(inDatabase, q, cursor, logs[|logs| - 1].entries) ==
            page.entries + Found(inDatabase, q, page.next.value, logs[|logs| - 1].entries)
  {
    page := PageFrom(inDatabase, q, cursor, logs[0].entries);
    ValidLogAscends(logs[0]);
    ValidLogAscends(logs[|logs| - 1]);
    WalkNext(inDatabase, q, cursor, logs);
    GrowsTail(logs);
    PageThenRest(inDatabase, q, cursor, logs[0].entries, logs[|logs| - 1].entries);
  }

  lemma {:induction false} WalkEnds(inDatabase: DatabaseTest, q: Query, cursor: nat, entries: seq<AuditEntry>)
    requires AscendingIds(entries) && LimitOf(q) > 0 && PageFrom(inDatabase, q, cursor, entries).next.None?
    ensures PageFrom(inDatabase, q, cursor, entries).entries == Found(inDatabase, q, cursor, entries)
  {
    PageIsPrefix(inDatabase, q, cursor, entries);
  }

  /**
   Following the cursor to the end, even while the log grows between pages, yields the
   entries matching in the last log past the starting cursor: each exactly once, in id order.
   */
  lemma {:induction false} PaginationExact(inDatabase: DatabaseTest, q: Query, cursor: nat, logs: seq<Log>)
    requires LimitOf(q) > 0 && Grows(logs) && Walk(inDatabase, q, cursor, logs)
    ensures Collected(inDatabase, q, cursor, logs) == Found(inDatabase, q, cursor, logs[|logs| - 1].entries)
    decreases |logs|
  {
    if |logs| == 1 {
      ValidLogAscends(logs[0]);
      WalkEnds(inDatabase, q, cursor, logs[0].entries);
    } else {
      var page := WalkStep(inDatabase, q, cursor, logs);
      PaginationExact(inDatabase, q, page.next.value, logs[1..]);
    }
  }

  /** What a walk collects: every matching entry past the cursor, no other, in strictly ascending id order. */
  lemma {:induction false} PaginationMeans(inDatabase: DatabaseTest, q: Query, cursor: nat, logs: seq<Log>)
    requires LimitOf(q) > 0 && Grows(logs) && Walk(inDatabase, q, cursor, logs)
    ensures AscendingIds(Collected(inDatabase, q, cursor, logs))
    ensures forall e :: e in Collected(inDatabase, q, cursor, logs) <==>
                        e in logs[|logs| - 1].entries && e.id > cursor && Matches(inDatabase, q, e)
  {
    PaginationExact(inDatabase, q, cursor, logs);
    ValidLogAscends(logs[|logs| - 1]);
    FoundFrom(inDatabase, q, cursor, logs[|logs| - 1].entries);
  }

  /**
   A limit of zero returns an empty page without a cursor: the walk ends at once, and
   it is exact only when nothing matches.
   */
  lemma {:induction false} LimitZeroStops(inDatabase: DatabaseTest, q: Query, cursor: nat, log: Log)
    requires ValidLog(log) && LimitOf(q) == 0
    ensures PageFrom(inDatabase, q, cursor, log.entries) == Page([], None)
    ensures Collected(inDatabase, q, cursor, [log]) == Found(inDatabase, q, cursor, log.entries)
            <==> forall e :: e in log.entries && e.id > cursor ==> !Matches(inDatabase, q, e)
  {
    ValidLogAscends(log);
    PageIsPrefix(inDatabase, q, cursor, log.entries);
    FoundFrom(inDatabase, q, cursor, log.entries);
    var found := Found(inDatabase, q, cursor, log.entries);
    assert Collected(inDatabase, q, cursor, [log]) == [];
    assert found != [] ==> found[0] in found;
  }
}
