/** Audit queries, page by page: a filter, a cursor and a limit, in descending order of recording time and id. */
module AuditPages {
  import opened Basics
  import opened TextOrder

  datatype Scope = Scope(tenant: Option<string>, scopeId: string)
  datatype Target = Target(kind: string, id: string)
  datatype Event = Event(scope: Scope, id: seq<nat>, recordedAt: int, action: string, target: Target, result: string,
                         correlation: Option<string>, body: string)

  datatype Cursor = Cursor(recordedAt: int, id: seq<nat>)

  datatype Filter = Filter(scope: Scope, action: Option<string>, target: Option<Target>, result: Option<string>,
                           correlation: Option<string>, recordedFrom: Option<int>, recordedTo: Option<int>)

  datatype Page = Page(events: seq<Event>, next: Option<Cursor>)
  datatype Answer = Answered(page: Page) | StorageFailed
  datatype Insertion = Inserted | Duplicate | Conflicting

  /** The same event: the time of recording is not part of its content. */
  predicate SameEvent(a: Event, b: Event) {
    a.(recordedAt := b.recordedAt) == b
  }

  predicate SameRow(a: Event, b: Event) {
    a.scope == b.scope && a.id == b.id
  }

  function At(e: Event): Cursor {
    Cursor(e.recordedAt, e.id)
  }

  /** Whether the first comes before the second in the listing. */
  predicate Above(a: Cursor, b: Cursor) {
    a.recordedAt > b.recordedAt || (a.recordedAt == b.recordedAt && Less(b.id, a.id))
  }

  predicate Asked<T(==)>(wanted: Option<T>, value: T) {
    wanted.None? || wanted.value == value
  }

  predicate Matches(e: Event, f: Filter) {
    && e.scope == f.scope && Asked(f.action, e.action) && Asked(f.target, e.target) && Asked(f.result, e.result)
    && (f.correlation.Some? ==> e.correlation == f.correlation)
    && (f.recordedFrom.Some? ==> e.recordedAt >= f.recordedFrom.value)
    && (f.recordedTo.Some? ==> e.recordedAt <= f.recordedTo.value)
  }

  predicate Below(e: Event, cursor: Option<Cursor>) {
    cursor.Some? ==> Above(cursor.value, At(e))
  }

  /** The rows a listing is about. */
  function Selected(rows: set<Event>, f: Filter, cursor: Option<Cursor>): set<Event> {
    set e | e in rows && Matches(e, f) && Below(e, cursor)
  }

  /** Ids are unique within a scope. */
  ghost predicate Unique(rows: set<Event>) {
    forall a, b | a in rows && b in rows && a.scope == b.scope && a.id == b.id :: a == b
  }

  ghost predicate Descending(events: seq<Event>) {
    forall i, j :: 0 <= i < j < |events| ==> Above(At(events[i]), At(events[j]))
  }

  /** The first rows of the selection, in order: nothing left out comes before anything listed. */
  ghost predicate Lists(events: seq<Event>, among: set<Event>, limit: nat) {
    && Descending(events) && |events| <= limit && (forall e | e in events :: e in among)
    && (forall e | e in among && e !in events :: |events| == limit && forall x | x in events :: Above(At(x), At(e)))
  }

  lemma AboveIsTotal(a: Event, b: Event)
    requires a.scope == b.scope
    ensures Above(At(a), At(b)) || Above(At(b), At(a)) || a.id == b.id
    ensures !(Above(At(a), At(b)) && Above(At(b), At(a))) && !Above(At(a), At(a))
  {
    LessTotal(a.id, b.id);
    LessTotal(a.id, a.id);
  }

  lemma AboveIsTransitive(a: Cursor, b: Cursor, c: Cursor)
    requires Above(a, b) && Above(b, c)
    ensures Above(a, c)
  {
    if a.recordedAt == b.recordedAt == c.recordedAt { LessTransitive(c.id, b.id, a.id); }
  }

  /** Later events come first, and of those recorded at one time the one with the greater id. */
  ghost predicate NewestFirst(events: seq<Event>) {
    forall i, j | 0 <= i < j < |events| ::
      events[i].recordedAt > events[j].recordedAt
      || (events[i].recordedAt == events[j].recordedAt && Less(events[j].id, events[i].id))
  }

  lemma DescendingIsNewestFirst(events: seq<Event>)
    ensures Descending(events) <==> NewestFirst(events)
  {
    if NewestFirst(events) {
      forall i, j | 0 <= i < j < |events| ensures Above(At(events[i]), At(events[j])) {
      }
    }
    if Descending(events) {
      forall i, j | 0 <= i < j < |events|
        ensures events[i].recordedAt > events[j].recordedAt
                || (events[i].recordedAt == events[j].recordedAt && Less(events[j].id, events[i].id))
      {
        assert Above(At(events[i]), At(events[j]));
      }
    }
  }

  /** The event is of the filter's scope and has every value, and lies in the range of times, that the filter gives. */
  predicate Wanted(e: Event, f: Filter) {
    && e.scope == f.scope
    && (f.action.Some? ==> f.action.value == e.action)
    && (f.target.Some? ==> f.target.value.kind == e.target.kind && f.target.value.id == e.target.id)
    && (f.result.Some? ==> f.result.value == e.result)
    && (f.correlation.Some? ==> e.correlation.Some? && e.correlation.value == f.correlation.value)
    && (f.recordedFrom.Some? ==> f.recordedFrom.value <= e.recordedAt)
    && (f.recordedTo.Some? ==> e.recordedAt <= f.recordedTo.value)
  }

  /** A listing is about the wanted events after its cursor: older ones, or as old with a smaller id. */
  lemma SelectedMeans(rows: set<Event>, f: Filter, cursor: Option<Cursor>, e: Event)
    ensures e in Selected(rows, f, cursor) <==> e in rows && Wanted(e, f) && After(e, cursor)
  {
  }

  predicate After(e: Event, cursor: Option<Cursor>) {
    cursor.Some? ==>
      e.recordedAt < cursor.value.recordedAt
      || (e.recordedAt == cursor.value.recordedAt && Less(e.id, cursor.value.id))
  }

  // ---- The repository ----

  class Repository {
    var rows: set<Event>

    constructor ()
      ensures rows == {}
    {
      rows := {};
    }

    /** A row whose id is taken in its scope is not stored again: it is a duplicate or a conflict, by its content. */
    method Insert(event: Event) returns (status: Insertion)
      requires Unique(rows)
      modifies this
      ensures status == Inserted <==> forall e | e in old(rows) :: e.scope != event.scope || e.id != event.id
      ensures status == Duplicate <==>
                exists e :: e in old(rows) && e == event.(recordedAt := e.recordedAt)
      ensures rows == if status == Inserted then old(rows) + {event} else old(rows)
      ensures Unique(rows)
    {
      if existing :| existing in rows && SameRow(existing, event) {
        return if SameEvent(event, existing) then Duplicate else Conflicting;
      }
      rows := rows + {event};
      status := Inserted;
    }

    /** Filter, order and limit, as the database does it: each row that passes every term is put in its place. */
    method List(f: Filter, cursor: Option<Cursor>, limit: nat) returns (events: seq<Event>)
      requires Unique(rows)
      ensures Lists(events, Selected(rows, f, cursor), limit)
    {
      events := [];
      var todo := rows;
      var taken: set<Event> := {};
      while todo != {}
        invariant todo <= rows && taken == Selected(rows - todo, f, cursor)
        invariant Descending(events) && forall e :: e in events <==> e in taken
        decreases todo
      {
        var e :| e in todo;
        if Matches(e, f) && Below(e, cursor) {
          forall x | x in events ensures Above(At(x), At(e)) || Above(At(e), At(x)) { AboveIsTotal(x, e); }
          events := Place(events, e);
          taken := taken + {e};
        }
        todo := todo - {e};
      }
      assert rows - todo == rows;
      CutLists(events, taken, limit);
      if |events| > limit { events := events[..limit]; }
    }
  }

  /** The event put in its place in a descending list. */
  method Place(events: seq<Event>, e: Event) returns (more: seq<Event>)
    requires Descending(events) && forall x | x in events :: Above(At(x), At(e)) || Above(At(e), At(x))
    ensures Descending(more) && forall x :: x in more <==> x in events || x == e
  {
    var i := 0;
    while i < |events| && Above(At(events[i]), At(e))
      invariant 0 <= i <= |events| && forall k :: 0 <= k < i ==> Above(At(events[k]), At(e))
    {
      i := i + 1;
    }
    forall k | i <= k < |events| ensures Above(At(e), At(events[k])) {
      if k > i { AboveIsTransitive(At(e), At(events[i]), At(events[k])); }
    }
    more := events[..i] + [e] + events[i..];
    PlacedDescends(events, e, i);
  }

  lemma PlacedDescends(events: seq<Event>, e: Event, i: nat)
    requires Descending(events) && i <= |events|
    requires forall k | 0 <= k < i :: Above(At(events[k]), At(e))
    requires forall k | i <= k < |events| :: Above(At(e), At(events[k]))
    ensures var more := events[..i] + [e] + events[i..];
            Descending(more) && forall x :: x in more <==> x in events || x == e
  {
    hide Above;
    var more := events[..i] + [e] + events[i..];
    forall j, k | 0 <= j < k < |more| ensures Above(At(more[j]), At(more[k])) {
      assert more[j] == if j < i then events[j] else if j == i then e else events[j - 1];
      assert more[k] == if k < i then events[k] else if k == i then e else events[k - 1];
    }
    forall x ensures x in more <==> x in events || x == e {
      assert events == events[..i] + events[i..];
    }
  }

  lemma CutLists(events: seq<Event>, all: set<Event>, limit: nat)
    requires Descending(events) && forall e :: e in events <==> e in all
    ensures Lists(if |events| > limit then events[..limit] else events, all, limit)
  {
    if |events| > limit {
      var cut := events[..limit];
      forall e | e in all && e !in cut ensures forall x | x in cut :: Above(At(x), At(e)) {
        var k :| 0 <= k < |events| && events[k] == e;
        assert forall m | 0 <= m < limit :: cut[m] == events[m] && cut[m] in cut;
      }
    }
  }

  // ---- The service's page ----

  /** What a page over a store says, whatever store it is. */
  ghost predicate IsPage(rows: set<Event>, f: Filter, cursor: Option<Cursor>, limit: nat, page: Page) {
    && Lists(page.events, Selected(rows, f, cursor), limit)
    && (page.next.None? ==> forall e | e in Selected(rows, f, cursor) :: e in page.events)
    && (page.next.Some? ==>
          && page.events != [] && page.next.value == At(page.events[|page.events| - 1])
          && |page.events| == limit && exists e :: e in Selected(rows, f, cursor) && e !in page.events)
  }

  /** The same in plain fields: the newest rows wanted after the cursor, and a next cursor, that of the last of them,
      exactly if there are more. */
  lemma PageMeans(rows: set<Event>, f: Filter, cursor: Option<Cursor>, limit: nat, page: Page)
    requires IsPage(rows, f, cursor, limit, page)
    ensures NewestFirst(page.events) && |page.events| <= limit
    ensures forall e | e in page.events :: e in rows && Wanted(e, f) && After(e, cursor)
    ensures forall e | e in rows && Wanted(e, f) && After(e, cursor) && e !in page.events ::
              && page.next.Some? && |page.events| == limit
              && forall x | x in page.events :: After(e, Some(Cursor(x.recordedAt, x.id)))
    ensures page.next.Some? ==>
              && page.events != [] && page.next.value.recordedAt == page.events[|page.events| - 1].recordedAt
              && page.next.value.id == page.events[|page.events| - 1].id
              && exists e :: e in rows && Wanted(e, f) && After(e, cursor) && e !in page.events
  {
    DescendingIsNewestFirst(page.events);
    hide NewestFirst, Descending;
    forall e ensures e in Selected(rows, f, cursor) <==> e in rows && Wanted(e, f) && After(e, cursor) {
      SelectedMeans(rows, f, cursor, e);
    }
    hide Selected, Wanted;
    forall e, x | e in Selected(rows, f, cursor) && e !in page.events && x in page.events
      ensures After(e, Some(Cursor(x.recordedAt, x.id)))
    {
      assert Above(At(x), At(e));
    }
  }

  class Service {
    const repository: Repository

    constructor (repository: Repository)
      ensures this.repository == repository
    {
      this.repository := repository;
    }

    /** Asks for one row more than the page holds; that row decides whether there is a next page. */
    method Query(f: Filter, cursor: Option<Cursor>, limit: nat) returns (answer: Answer)
      requires Unique(repository.rows) && limit > 0
      ensures answer.Answered? && IsPage(repository.rows, f, cursor, limit, answer.page)
      ensures NewestFirst(answer.page.events) && |answer.page.events| <= limit
      ensures forall e | e in answer.page.events :: e in repository.rows && Wanted(e, f) && After(e, cursor)
      ensures forall e | e in repository.rows && Wanted(e, f) && After(e, cursor) && e !in answer.page.events ::
                && answer.page.next.Some? && |answer.page.events| == limit
                && forall x | x in answer.page.events :: After(e, Some(Cursor(x.recordedAt, x.id)))
      ensures answer.page.next.Some? ==>
                && answer.page.next.value.recordedAt == answer.page.events[|answer.page.events| - 1].recordedAt
                && answer.page.next.value.id == answer.page.events[|answer.page.events| - 1].id
                && exists e :: e in repository.rows && Wanted(e, f) && After(e, cursor) && e !in answer.page.events
    {
      var rows := repository.List(f, cursor, limit + 1);
      if exists i :: 0 <= i < |rows| && rows[i].scope != f.scope {
        assert false;
        return StorageFailed;
      }
      var events := if |rows| > limit then rows[..limit] else rows;
      var next := None;
      if |rows| > limit && |events| > 0 { next := Some(At(events[|events| - 1])); }
      hide Lists, IsPage;
      PageIsCut(repository.rows, f, cursor, limit, rows);
      PageMeans(repository.rows, f, cursor, limit, Page(events, next));
      answer := Answered(Page(events, next));
    }

    /** Following the cursor on a store at rest ends, with every matching event once, in order. */
    method Walk(f: Filter, limit: nat) returns (events: seq<Event>)
      requires Unique(repository.rows) && limit > 0
      ensures NewestFirst(events)
      ensures forall e :: e in events <==> e in repository.rows && Wanted(e, f)
    {
      events := [];
      var answer := Query(f, None, limit);
      ghost var cursor := None;
      while answer.page.next.Some?
        invariant answer.Answered? && IsPage(repository.rows, f, cursor, limit, answer.page)
        invariant Covered(repository.rows, repository.rows, f, cursor, events)
        decreases |Selected(repository.rows, f, cursor)|
      {
        CoversMore(repository.rows, repository.rows, f, cursor, limit, answer.page, events);
        PageShrinks(repository.rows, f, cursor, limit, answer.page);
        events := events + answer.page.events;
        cursor := answer.page.next;
        answer := Query(f, answer.page.next, limit);
      }
      CoversMore(repository.rows, repository.rows, f, cursor, limit, answer.page, events);
      events := events + answer.page.events;
      DescendingIsNewestFirst(events);
      forall e ensures e in Selected(repository.rows, f, None) <==> e in repository.rows && Wanted(e, f) {
        SelectedMeans(repository.rows, f, None, e);
      }
    }
  }

  // ---- Walks over a store that may grow ----

  /** What was listed so far: in order, down to the cursor, with nothing of the first store above it missing. */
  ghost predicate Covered(first: set<Event>, rows: set<Event>, f: Filter, cursor: Option<Cursor>, events: seq<Event>) {
    && Descending(events)
    && (forall e | e in events :: e in rows && Matches(e, f) && cursor.Some?
          && (At(e) == cursor.value || Above(At(e), cursor.value)))
    && (forall e | e in first && Matches(e, f) && e !in events :: Below(e, cursor))
  }

  /** All that was asked of the first store is listed, in order, and nothing else than matching rows. */
  ghost predicate Complete(first: set<Event>, rows: set<Event>, f: Filter, events: seq<Event>) {
    && Descending(events) && (forall e | e in events :: e in Selected(rows, f, None))
    && (forall e | e in Selected(first, f, None) :: e in events)
  }

  lemma CoversMore(first: set<Event>, rows: set<Event>, f: Filter, cursor: Option<Cursor>, limit: nat, page: Page,
                   events: seq<Event>)
    requires first <= rows && Covered(first, rows, f, cursor, events) && IsPage(rows, f, cursor, limit, page)
    ensures page.next.Some? ==> Covered(first, rows, f, page.next, events + page.events)
    ensures page.next.None? ==> Complete(first, rows, f, events + page.events)
  {
    JoinsDescending(events, page.events, cursor);
    var all := events + page.events;
    forall e | e in events && page.next.Some? ensures Above(At(e), page.next.value) {
      var last := page.events[|page.events| - 1];
      assert last in page.events && Below(last, cursor);
      if At(e) != cursor.value { AboveIsTransitive(At(e), cursor.value, At(last)); }
    }
    forall e | e in page.events && page.next.Some? ensures At(e) == page.next.value || Above(At(e), page.next.value) {
      var k :| 0 <= k < |page.events| && page.events[k] == e;
    }
    forall e | e in first && Matches(e, f) && e !in all ensures page.next.Some? && Below(e, page.next) {
      assert e in Selected(rows, f, cursor);
      if page.next.Some? { assert page.events[|page.events| - 1] in page.events; }
    }
  }

  lemma JoinsDescending(events: seq<Event>, more: seq<Event>, cursor: Option<Cursor>)
    requires Descending(events) && Descending(more)
    requires forall e | e in events :: cursor.Some? && (At(e) == cursor.value || Above(At(e), cursor.value))
    requires forall e | e in more :: Below(e, cursor)
    ensures Descending(events + more)
  {
    forall i, j | 0 <= i < |events| && 0 <= j < |more| ensures Above(At(events[i]), At(more[j])) {
      assert events[i] in events && more[j] in more;
      if At(events[i]) != cursor.value { AboveIsTransitive(At(events[i]), cursor.value, At(more[j])); }
    }
  }

  /** Every page leaves less to list, so a walk over a store at rest ends. */
  lemma PageShrinks(rows: set<Event>, f: Filter, cursor: Option<Cursor>, limit: nat, page: Page)
    requires IsPage(rows, f, cursor, limit, page) && page.next.Some?
    ensures |Selected(rows, f, page.next)| < |Selected(rows, f, cursor)|
  {
    var last := page.events[|page.events| - 1];
    assert last in page.events;
    LessTotal(last.id, last.id);
    forall e | e in Selected(rows, f, page.next) ensures e in Selected(rows, f, cursor) {
      if cursor.Some? { AboveIsTransitive(cursor.value, At(last), At(e)); }
    }
    ProperSubsetIsSmaller(Selected(rows, f, page.next), Selected(rows, f, cursor), last);
  }

  lemma ProperSubsetIsSmaller(a: set<Event>, b: set<Event>, e: Event)
    requires a <= b && e in b && e !in a
    ensures |a| < |b|
  {
    SubsetSize(a, b - {e});
  }

  /** One request of a walk: the store as it was then, the page size and the page. */
  datatype Visit = Visit(rows: set<Event>, limit: nat, page: Page)

  /** Each request follows the cursor of the one before, over a store that only gains rows, until there is no cursor. */
  ghost predicate Walks(f: Filter, cursor: Option<Cursor>, visits: seq<Visit>)
    decreases |visits|
  {
    && visits != [] && IsPage(visits[0].rows, f, cursor, visits[0].limit, visits[0].page)
    && if visits[0].page.next.None? then |visits| == 1
       else && |visits| > 1 && visits[0].rows <= visits[1].rows
            && Walks(f, visits[0].page.next, visits[1..])
  }

  function Listed(visits: seq<Visit>): seq<Event> {
    if visits == [] then [] else visits[0].page.events + Listed(visits[1..])
  }

  lemma MoreRowsCover(first: set<Event>, rows: set<Event>, more: set<Event>, f: Filter, cursor: Option<Cursor>,
                      events: seq<Event>)
    requires rows <= more && Covered(first, rows, f, cursor, events)
    ensures Covered(first, more, f, cursor, events)
  {
  }

  lemma {:induction false} WalkCovers(first: set<Event>, f: Filter, cursor: Option<Cursor>, visits: seq<Visit>,
                                      before: seq<Event>)
    requires Walks(f, cursor, visits) && first <= visits[0].rows && Covered(first, visits[0].rows, f, cursor, before)
    ensures Complete(first, visits[|visits| - 1].rows, f, before + Listed(visits))
    decreases |visits|
  {
    var v := visits[0];
    CoversMore(first, v.rows, f, cursor, v.limit, v.page, before);
    Associate(before, v.page.events, Listed(visits[1..]));
    if v.page.next.None? {
      assert visits[1..] == [];
      assert before + v.page.events + [] == before + v.page.events;
    } else {
      MoreRowsCover(first, v.rows, visits[1].rows, f, v.page.next, before + v.page.events);
      WalkCovers(first, f, v.page.next, visits[1..], before + v.page.events);
    }
  }

  /** Whatever rows are inserted between the requests, no event is listed twice, and none that was there at the start
      is missed. */
  lemma {:induction false} WalkIsComplete(f: Filter, visits: seq<Visit>)
    requires Walks(f, None, visits)
    ensures Complete(visits[0].rows, visits[|visits| - 1].rows, f, Listed(visits))
  {
    WalkCovers(visits[0].rows, f, None, visits, []);
    assert [] + Listed(visits) == Listed(visits);
  }

  /** Rows arriving between two requests are not below the cursor. */
  ghost predicate ArrivesAbove(f: Filter, visits: seq<Visit>) {
    forall i :: 0 <= i < |visits| - 1 ==> AboveCursor(visits[i].rows, visits[i + 1].rows, f, visits[i].page.next)
  }

  ghost predicate AboveCursor(rows: set<Event>, more: set<Event>, f: Filter, cursor: Option<Cursor>) {
    forall e | e in more && e !in rows && Matches(e, f) :: !Below(e, cursor)
  }

  lemma {:induction false} ListsOnlyFirst(first: set<Event>, f: Filter, cursor: Option<Cursor>, visits: seq<Visit>)
    requires Walks(f, cursor, visits) && ArrivesAbove(f, visits)
    requires forall e | e in Selected(visits[0].rows, f, cursor) :: e in first
    ensures forall e | e in Listed(visits) :: e in first
    decreases |visits|
  {
    var v := visits[0];
    if v.page.next.Some? {
      forall e | e in Selected(visits[1].rows, f, v.page.next) ensures e in first {
        var last := v.page.events[|v.page.events| - 1];
        assert last in v.page.events;
        assert AboveCursor(visits[0].rows, visits[1].rows, f, visits[0].page.next);
        if cursor.Some? { AboveIsTransitive(cursor.value, At(last), At(e)); }
      }
      forall i | 0 <= i < |visits[1..]| - 1
        ensures AboveCursor(visits[1..][i].rows, visits[1..][i + 1].rows, f, visits[1..][i].page.next)
      {
        assert AboveCursor(visits[i + 1].rows, visits[i + 2].rows, f, visits[i + 1].page.next);
      }
      ListsOnlyFirst(first, f, v.page.next, visits[1..]);
    } else {
      assert Listed(visits[1..]) == [];
    }
  }

  /** With arrivals above the cursor the walk lists exactly the matching events of the first store, in order. */
  lemma {:induction false} WalkIsExact(f: Filter, visits: seq<Visit>)
    requires Walks(f, None, visits) && ArrivesAbove(f, visits)
    ensures NewestFirst(Listed(visits))
    ensures forall e :: e in Listed(visits) <==> e in visits[0].rows && Wanted(e, f)
  {
    WalkIsComplete(f, visits);
    ListsOnlyFirst(visits[0].rows, f, None, visits);
    DescendingIsNewestFirst(Listed(visits));
    forall e ensures e in Selected(visits[0].rows, f, None) <==> e in visits[0].rows && Wanted(e, f) {
      SelectedMeans(visits[0].rows, f, None, e);
    }
  }

  /** Descending order leaves no room for repetition. */
  lemma DescendingHasNoRepeats(events: seq<Event>, i: nat, j: nat)
    requires Descending(events) && i < j < |events|
    ensures events[i] != events[j]
  {
    LessTotal(events[i].id, events[i].id);
  }

  lemma PageIsCut(rows: set<Event>, f: Filter, cursor: Option<Cursor>, limit: nat, listed: seq<Event>)
    requires limit > 0 && Lists(listed, Selected(rows, f, cursor), limit + 1)
    ensures var events := if |listed| > limit then listed[..limit] else listed;
            IsPage(rows, f, cursor, limit,
                Page(events, if |listed| > limit then Some(At(events[|events| - 1])) else None))
  {
    if |listed| > limit {
      var events := listed[..limit];
      assert Above(At(listed[limit - 1]), At(listed[limit]));
      forall e | e in Selected(rows, f, cursor) && e !in events ensures forall x | x in events :: Above(At(x), At(e)) {
        if e in listed { assert e == listed[limit]; }
      }
      assert listed[limit] in Selected(rows, f, cursor);
      assert listed[limit] !in events by {
        forall k | 0 <= k < limit ensures events[k] != listed[limit] {
          assert Above(At(listed[k]), At(listed[limit]));
          LessTotal(listed[limit].id, listed[limit].id);
        }
      }
    }
  }
}
