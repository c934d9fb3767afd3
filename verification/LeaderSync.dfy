/**
  Followers mirror the leader's quotes and orders: a paged pull, an upsert of everything
  pulled, and for quotes the deletion of whatever the pull did not contain.
 */
module LeaderSync {
  import opened Wrappers

  type Id = string
  type Payload = string

  /** One element of a page: a record with its id, possibly empty, or something else. */
  datatype Item = Malformed | Row(id: Id, data: Payload)

  type Page = seq<Item>

  /** The leader's answers, by the number of the request. A failed HTTP status is an empty page. */
  type Pages = nat -> Outcome<Page>

  type Table = map<Id, Payload>

  const PAGE_SIZE: nat := 500

  function Offset(k: nat): nat {
    500 * k
  }

  // ---------------------------------------------------------------- pulling

  predicate Usable(item: Item, seen: set<Id>) {
    item.Row? && item.id != "" && item.id !in seen
  }

  /** The records of a page that earlier pages did not contain. */
  function Fresh(page: Page, seen: set<Id>): (news: seq<Item>)
    ensures forall r :: r in news <==> r in page && Usable(r, seen)
  {
    if page == [] then []
    else
      var rest := Fresh(page[..|page| - 1], seen);
      var last := page[|page| - 1];
      assert page == page[..|page| - 1] + [last];
      if Usable(last, seen) then rest + [last] else rest
  }

  function Ids(rows: seq<Item>): set<Id> {
    set r | r in rows && r.Row? :: r.id
  }

  /** All ids the leader ever serves are in one finite set. */
  ghost predicate Within(pages: Pages, universe: set<Id>) {
    forall k, r :: pages(k).Returned? && r in pages(k).value && r.Row? ==> r.id in universe
  }

  function Prepend(rows: seq<Item>, rest: Outcome<seq<Item>>): Outcome<seq<Item>> {
    match rest
    case Raised => Raised
    case Returned(more) => Returned(rows + more)
  }

  lemma Shrinks(universe: set<Id>, seen: set<Id>, news: seq<Item>)
    requires news != [] && forall r :: r in news ==> Usable(r, seen) && r.id in universe
    ensures |universe - (seen + Ids(news))| < |universe - seen|
  {
    assert news[0] in news;
    var id := news[0].id;
    assert id in universe - seen && id in Ids(news);
    assert universe - (seen + Ids(news)) <= (universe - seen) - {id};
    Smaller(universe - (seen + Ids(news)), (universe - seen) - {id});
  }

  lemma {:induction false} Smaller<T>(a: set<T>, b: set<T>)
    requires a <= b
    ensures |a| <= |b|
    decreases a
  {
    if a != {} {
      var x :| x in a;
      Smaller(a - {x}, b - {x});
    }
  }

  /** Everything pulled from request `k` on. */
  ghost function Pull(pages: Pages, universe: set<Id>, k: nat, seen: set<Id>): Outcome<seq<Item>>
    requires Within(pages, universe)
    decreases |universe - seen|
  {
    if pages(k).Raised? then Raised
    else
      var page := pages(k).value;
      var news := Fresh(page, seen);
      if news == [] then Returned([])
      else if |page| < PAGE_SIZE then Returned(news)
      else
        Shrinks(universe, seen, news);
        Prepend(news, Pull(pages, universe, k + 1, seen + Ids(news)))
  }

  /** The paging loop. It ends because every page it goes on from brings an id not seen before. */
  method PullAll(pages: Pages, ghost universe: set<Id>) returns (pulled: Outcome<seq<Item>>)
    requires Within(pages, universe)
    ensures pulled == Pull(pages, universe, 0, {})
  {
    var rows: seq<Item>, seen: set<Id>, k: nat := [], {}, 0;
    Prepended([], [], Pull(pages, universe, 0, {}));
    while true
      invariant Pull(pages, universe, 0, {}) == Prepend(rows, Pull(pages, universe, k, seen))
      decreases |universe - seen|
    {
      if pages(k).Raised? {
        return Raised;
      }
      var page := pages(k).value;
      var news := Fresh(page, seen);
      Prepended(rows, news, Returned([]));
      if news == [] {
        break;
      }
      Shrinks(universe, seen, news);
      Prepended(rows, news, Pull(pages, universe, k + 1, seen + Ids(news)));
      rows := rows + news;
      seen := seen + Ids(news);
      if |page| < PAGE_SIZE {
        break;
      }
      k := k + 1;
    }
    pulled := Returned(rows);
  }

  lemma Prepended(a: seq<Item>, b: seq<Item>, rest: Outcome<seq<Item>>)
    ensures Prepend(a, Prepend(b, rest)) == Prepend(a + b, rest)
    ensures Prepend(a, Returned(b)) == Returned(a + b)
    ensures Prepend(a, Returned([])) == Returned(a)
    ensures Prepend([], rest) == rest
  {
    if rest.Returned? {
      assert a + (b + rest.value) == (a + b) + rest.value;
    }
    assert a + [] == a;
    assert rest.Returned? ==> [] + rest.value == rest.value;
  }

  // ---------------------------------------------------------------- storing

  predicate Rows(rows: seq<Item>) {
    forall r :: r in rows ==> r.Row?
  }

  /** The table after the first `n` records were saved; a save at a position in `lost` fails. */
  function Upserted(table: Table, rows: seq<Item>, n: nat, lost: set<nat>): Table
    requires Rows(rows) && n <= |rows|
  {
    if n == 0 then table
    else
      var before := Upserted(table, rows, n - 1, lost);
      assert rows[n - 1] in rows;
      if n - 1 in lost then before else before[rows[n - 1].id := rows[n - 1].data]
  }

  /** What a quote sync makes of the table. */
  function Mirrored(table: Table, rows: seq<Item>, lost: set<nat>, reconciles: bool): Table
    requires Rows(rows)
  {
    var saved := Upserted(table, rows, |rows|, lost);
    if rows == [] || !reconciles then saved else saved - (saved.Keys - Ids(rows))
  }

  class Follower {
    var quotes: Table
    var orders: Table

    constructor (q: Table, o: Table)
      ensures quotes == q && orders == o
    {
      quotes, orders := q, o;
    }

    /** One quote sync. A request that raises ends it before anything is written. */
    method SyncQuotes(pages: Pages, ghost universe: set<Id>, lost: set<nat>, reconciles: bool)
        returns (pulled: Outcome<seq<Item>>)
      requires Within(pages, universe)
      modifies `quotes
      ensures pulled == Pull(pages, universe, 0, {})
      ensures pulled.Raised? ==> quotes == old(quotes)
      ensures pulled.Returned? ==> Rows(pulled.value) && quotes == Mirrored(old(quotes), pulled.value, lost, reconciles)
    {
      pulled := PullAll(pages, universe);
      PulledAreRows(pages, universe, 0, {});
      if pulled.Raised? || pulled.value == [] {
        return;
      }
      var rows := pulled.value;
      for i := 0 to |rows|
        invariant quotes == Upserted(old(quotes), rows, i, lost)
      {
        assert rows[i] in rows;
        if i !in lost {
          quotes := quotes[rows[i].id := rows[i].data];
        }
      }
      if reconciles {
        var stale := quotes.Keys - Ids(rows);
        if stale != {} {
          quotes := quotes - stale;
        }
      }
    }

    /** One order sync: the same pull, and nothing is deleted. */
    method SyncOrders(pages: Pages, ghost universe: set<Id>, lost: set<nat>) returns (pulled: Outcome<seq<Item>>)
      requires Within(pages, universe)
      modifies `orders
      ensures pulled == Pull(pages, universe, 0, {})
      ensures pulled.Raised? ==> orders == old(orders)
      ensures pulled.Returned? ==>
                Rows(pulled.value) && orders == Upserted(old(orders), pulled.value, |pulled.value|, lost)
    {
      pulled := PullAll(pages, universe);
      PulledAreRows(pages, universe, 0, {});
      if pulled.Raised? {
        return;
      }
      var rows := pulled.value;
      for i := 0 to |rows|
        invariant orders == Upserted(old(orders), rows, i, lost)
      {
        assert rows[i] in rows;
        if i !in lost {
          orders := orders[rows[i].id := rows[i].data];
        }
      }
    }
  }

  lemma {:induction false} PulledAreRows(pages: Pages, universe: set<Id>, k: nat, seen: set<Id>)
    requires Within(pages, universe)
    ensures Pull(pages, universe, k, seen).Returned? ==>
              forall r :: r in Pull(pages, universe, k, seen).value ==> Usable(r, seen)
    decreases |universe - seen|
  {
    if pages(k).Returned? {
      var page := pages(k).value;
      var news := Fresh(page, seen);
      if news != [] && |page| >= PAGE_SIZE {
        Shrinks(universe, seen, news);
        PulledAreRows(pages, universe, k + 1, seen + Ids(news));
      }
    }
  }

  // ---------------------------------------------------------------- the leader

  /** Well-formed records with distinct, non-empty ids. */
  predicate Catalogue(rows: seq<Item>) {
    && Rows(rows)
    && (forall i :: 0 <= i < |rows| ==> rows[i].Row? && rows[i].id != "")
    && forall i, j :: 0 <= i < j < |rows| ==> rows[i].id != rows[j].id
  }

  /** The page a paginating leader serves for request `k`. */
  function PageOf(rows: seq<Item>, k: nat): Page {
    rows[Min(Offset(k), |rows|)..Min(Offset(k + 1), |rows|)]
  }

  /** A leader that serves the first `good` requests from one catalogue, and fails the next one. */
  ghost predicate ServesUntil(pages: Pages, rows: seq<Item>, good: nat) {
    && (forall k: nat :: k < good ==> pages(k) == Returned(PageOf(rows, k)))
    && pages(good) == Returned([])
  }

  /** A leader whose catalogue does not change during the pull. */
  ghost predicate Serves(pages: Pages, rows: seq<Item>) {
    forall k :: pages(k) == Returned(PageOf(rows, k))
  }

  /** A leader from before pagination. */
  ghost predicate IgnoresPaging(pages: Pages, rows: seq<Item>) {
    forall k :: pages(k) == Returned(rows)
  }

  lemma {:induction false} AllFresh(page: Page, seen: set<Id>)
    requires forall r :: r in page ==> Usable(r, seen)
    ensures Fresh(page, seen) == page
  {
    if page != [] {
      var init, last := page[..|page| - 1], page[|page| - 1];
      assert page == init + [last] && last in page;
      AllFresh(init, seen);
    }
  }

  lemma {:induction false} NoneFresh(page: Page, seen: set<Id>)
    requires forall r :: r in page ==> r.Row? && r.id in seen
    ensures Fresh(page, seen) == []
  {
    if page != [] {
      NoneFresh(page[..|page| - 1], seen);
      assert page[|page| - 1] in page;
    }
  }

  /** No row of a page has an id that an earlier page brought. */
  lemma PageIsUsable(rows: seq<Item>, k: nat)
    requires Catalogue(rows) && Offset(k) <= |rows|
    ensures forall r :: r in PageOf(rows, k) ==> Usable(r, Ids(rows[..Offset(k)]))
  {
    var from, page := Offset(k), PageOf(rows, k);
    forall r | r in page ensures Usable(r, Ids(rows[..from])) {
      var i :| 0 <= i < |page| && page[i] == r;
      assert rows[from + i] == r;
    }
  }

  lemma PageIsFresh(rows: seq<Item>, k: nat)
    requires Catalogue(rows) && Offset(k) <= |rows|
    ensures Fresh(PageOf(rows, k), Ids(rows[..Offset(k)])) == PageOf(rows, k)
    ensures rows[..Offset(k)] + PageOf(rows, k) == rows[..Min(Offset(k + 1), |rows|)]
    ensures Ids(rows[..Offset(k)]) + Ids(PageOf(rows, k)) == Ids(rows[..Min(Offset(k + 1), |rows|)])
  {
    PageIsUsable(rows, k);
    AllFresh(PageOf(rows, k), Ids(rows[..Offset(k)]));
    PageExtends(rows, k);
    IdsAdd(rows[..Offset(k)], PageOf(rows, k));
  }

  lemma PageExtends(rows: seq<Item>, k: nat)
    requires Offset(k) <= |rows|
    ensures rows[..Offset(k)] + PageOf(rows, k) == rows[..Min(Offset(k + 1), |rows|)]
  {
  }

  lemma IdsAdd(a: seq<Item>, b: seq<Item>)
    ensures Ids(a + b) == Ids(a) + Ids(b)
  {
  }

  /** Request `k` adds its page to what the later ones bring. */
  ghost predicate AddsPage(pages: Pages, universe: set<Id>, rows: seq<Item>, k: nat)
    requires Within(pages, universe)
  {
    Offset(k) <= |rows| ==>
      Pull(pages, universe, k, Ids(rows[..Offset(k)])) ==
        if Offset(k + 1) > |rows| then Returned(rows[Offset(k)..])
        else Prepend(PageOf(rows, k), Pull(pages, universe, k + 1, Ids(rows[..Offset(k + 1)])))
  }

  lemma PullUnfolds(pages: Pages, universe: set<Id>, k: nat, seen: set<Id>, page: Page, after: set<Id>)
    requires Within(pages, universe) && pages(k) == Returned(page)
    requires Fresh(page, seen) == page && seen + Ids(page) == after
    ensures Pull(pages, universe, k, seen) ==
            if |page| < PAGE_SIZE then Returned(page)
            else Prepend(page, Pull(pages, universe, k + 1, after))
  {
  }

  lemma PageLength(rows: seq<Item>, k: nat)
    requires Offset(k) <= |rows|
    ensures Offset(k + 1) > |rows| ==> |PageOf(rows, k)| < PAGE_SIZE && PageOf(rows, k) == rows[Offset(k)..]
    ensures Offset(k + 1) <= |rows| ==> |PageOf(rows, k)| == PAGE_SIZE && Min(Offset(k + 1), |rows|) == Offset(k + 1)
  {
  }

  lemma PullsPage(pages: Pages, universe: set<Id>, rows: seq<Item>, k: nat)
    requires Within(pages, universe) && Catalogue(rows)
    requires pages(k) == Returned(PageOf(rows, k))
    ensures AddsPage(pages, universe, rows, k)
  {
    if Offset(k) <= |rows| {
      PageIsFresh(rows, k);
      PageLength(rows, k);
      PullUnfolds(pages, universe, k, Ids(rows[..Offset(k)]), PageOf(rows, k),
                  Ids(rows[..Min(Offset(k + 1), |rows|)]));
    }
  }

  lemma Joined(rows: seq<Item>, k: nat)
    requires Offset(k + 1) <= |rows|
    ensures Prepend(PageOf(rows, k), Returned(rows[Offset(k + 1)..])) == Returned(rows[Offset(k)..])
  {
    assert PageOf(rows, k) + rows[Offset(k + 1)..] == rows[Offset(k)..];
  }

  /** The pages up to one past the end are served in order. */
  ghost predicate ServesTo(pages: Pages, rows: seq<Item>, last: nat) {
    |rows| <= Offset(last) && forall j: nat :: j <= last ==> pages(j) == Returned(PageOf(rows, j))
  }

  lemma {:induction false} PullsRest(pages: Pages, universe: set<Id>, rows: seq<Item>, k: nat, last: nat)
    requires Within(pages, universe)
    requires forall j: nat :: j <= last ==> AddsPage(pages, universe, rows, j)
    requires Offset(k) <= |rows| <= Offset(last)
    ensures Pull(pages, universe, k, Ids(rows[..Offset(k)])) == Returned(rows[Offset(k)..])
    decreases last - k
  {
    assert AddsPage(pages, universe, rows, k);
    if Offset(k + 1) <= |rows| {
      PullsRest(pages, universe, rows, k + 1, last);
      Joined(rows, k);
    }
  }

  /** A leader that serves the catalogue up to one page past its end is pulled completely. */
  lemma PullsAll(pages: Pages, universe: set<Id>, rows: seq<Item>, last: nat)
    requires Within(pages, universe) && Catalogue(rows) && ServesTo(pages, rows, last)
    ensures Pull(pages, universe, 0, {}) == Returned(rows)
  {
    forall j: nat | j <= last ensures AddsPage(pages, universe, rows, j) {
      PullsPage(pages, universe, rows, j);
    }
    PullsRest(pages, universe, rows, 0, last);
    assert rows[..0] == [] && Ids([]) == {} && rows[0..] == rows;
  }

  /** Some answer from the `k`-th on contains this item. */
  ghost predicate Served(pages: Pages, k: nat, r: Item) {
    exists j: nat :: j >= k && pages(j).Returned? && r in pages(j).value
  }

  /**
    Whatever the leader serves, a pull takes rows only, with an id that is not empty and that no
    earlier page had; and all such rows of its first page.
   */
  lemma {:induction false} PulledExactly(pages: Pages, universe: set<Id>, k: nat, seen: set<Id>)
    requires Within(pages, universe)
    ensures var pulled := Pull(pages, universe, k, seen);
            && (pages(k).Raised? ==> pulled.Raised?)
            && (pulled.Returned? ==>
                 && (forall r :: r in pulled.value ==> r.Row? && r.id != "" && r.id !in seen && Served(pages, k, r))
                 && (pages(k).Returned? ==>
                      forall r :: r in pages(k).value && r.Row? && r.id != "" && r.id !in seen ==> r in pulled.value))
    decreases |universe - seen|
  {
    if pages(k).Returned? {
      var page := pages(k).value;
      var news := Fresh(page, seen);
      assert forall r :: r in news ==> Served(pages, k, r);
      if news != [] && |page| >= PAGE_SIZE {
        Shrinks(universe, seen, news);
        PulledExactly(pages, universe, k + 1, seen + Ids(news));
        forall r | Served(pages, k + 1, r) ensures Served(pages, k, r) {
          var j: nat :| j >= k + 1 && pages(j).Returned? && r in pages(j).value;
          assert j >= k;
        }
      }
    }
  }

  /** A stable leader is pulled completely, page by page. */
  lemma StableLeaderIsPulled(pages: Pages, universe: set<Id>, rows: seq<Item>)
    requires Within(pages, universe) && Catalogue(rows) && Serves(pages, rows)
    ensures Pull(pages, universe, 0, {}) == Returned(rows)
  {
    PullsAll(pages, universe, rows, |rows|);
  }

  /** A leader that sends everything on every page is pulled completely as well. */
  lemma UnpagedLeaderIsPulled(pages: Pages, universe: set<Id>, rows: seq<Item>)
    requires Within(pages, universe) && Catalogue(rows) && IgnoresPaging(pages, rows)
    ensures Pull(pages, universe, 0, {}) == Returned(rows)
  {
    AllFresh(rows, {});
    assert {} + Ids(rows) == Ids(rows);
    assert forall r :: r in rows ==> r.Row? && r.id in Ids(rows);
    NoneFresh(rows, Ids(rows));
    assert rows + [] == rows;
  }

  /** A page that fails ends the pull: what is pulled is what came before it. */
  lemma FailedPageTruncates(pages: Pages, universe: set<Id>, rows: seq<Item>, good: nat)
    requires Within(pages, universe) && Catalogue(rows) && ServesUntil(pages, rows, good)
    ensures Pull(pages, universe, 0, {}) == Returned(rows[..Min(Offset(good), |rows|)])
  {
    var kept := rows[..Min(Offset(good), |rows|)];
    forall k: nat | k <= good ensures pages(k) == Returned(PageOf(kept, k)) {
      if k < good {
        assert PageOf(kept, k) == PageOf(rows, k);
      } else {
        assert PageOf(kept, k) == [];
      }
    }
    PullsAll(pages, universe, kept, good);
  }

  // ---------------------------------------------------------------- the mirror

  /** The table that holds exactly a catalogue. */
  function Holding(rows: seq<Item>): Table
    requires Rows(rows)
  {
    Upserted(map[], rows, |rows|, {})
  }

  lemma {:induction false} UpsertedKeys(table: Table, rows: seq<Item>, n: nat)
    requires Rows(rows) && n <= |rows|
    ensures Upserted(table, rows, n, {}).Keys == table.Keys + Ids(rows[..n])
  {
    if n == 0 {
      assert rows[..0] == [] && Ids([]) == {};
    } else {
      UpsertedKeys(table, rows, n - 1);
      assert rows[n - 1] in rows;
      assert rows[..n] == rows[..n - 1] + [rows[n - 1]];
      IdsAdd(rows[..n - 1], [rows[n - 1]]);
      assert Ids([rows[n - 1]]) == {rows[n - 1].id};
    }
  }

  lemma {:induction false} UpsertedRow(table: Table, rows: seq<Item>, n: nat, i: nat)
    requires Catalogue(rows) && i < n <= |rows|
    ensures var t := Upserted(table, rows, n, {}); rows[i].id in t && t[rows[i].id] == rows[i].data
  {
    if i < n - 1 {
      UpsertedRow(table, rows, n - 1, i);
      assert rows[i].id != rows[n - 1].id;
    }
  }

  /** `Holding` is the table that has each row's data under its id, and nothing else. */
  lemma HoldsEachRow(rows: seq<Item>)
    requires Catalogue(rows)
    ensures Holding(rows).Keys == Ids(rows)
    ensures forall i :: 0 <= i < |rows| ==> rows[i].id in Holding(rows) && Holding(rows)[rows[i].id] == rows[i].data
  {
    UpsertedKeys(map[], rows, |rows|);
    assert rows[..|rows|] == rows;
    forall i | 0 <= i < |rows| ensures rows[i].id in Holding(rows) && Holding(rows)[rows[i].id] == rows[i].data {
      UpsertedRow(map[], rows, |rows|, i);
    }
  }

  /** Upserting rows lays them over the table. */
  lemma {:induction false} UpsertsOverlay(table: Table, rows: seq<Item>, n: nat)
    requires Rows(rows) && n <= |rows|
    ensures Upserted(table, rows, n, {}) == table + Upserted(map[], rows, n, {})
  {
    if n > 0 { UpsertsOverlay(table, rows, n - 1); }
  }

  /** With all saves done, the follower holds exactly the rows of a non-empty pull. */
  lemma PullDecidesTheMirror(table: Table, rows: seq<Item>)
    requires Catalogue(rows) && rows != []
    ensures Mirrored(table, rows, {}, true) == Holding(rows)
    ensures Holding(rows).Keys == Ids(rows)
  {
    HoldsEachRow(rows);
    UpsertsOverlay(table, rows, |rows|);
    OnlyOverlay(table, Holding(rows));
  }

  lemma OnlyOverlay(table: Table, m: Table)
    ensures (table + m) - ((table + m).Keys - m.Keys) == m
    ensures (table + m) + m == table + m
  {
  }

  /** Mirroring a stable leader makes the follower's table the leader's, and repeating it changes nothing. */
  lemma MirrorIsExactAndIdempotent(pages: Pages, universe: set<Id>, rows: seq<Item>, table: Table)
    requires Within(pages, universe) && Catalogue(rows) && rows != []
    requires Serves(pages, rows) || IgnoresPaging(pages, rows)
    ensures var pulled := Pull(pages, universe, 0, {});
            && pulled == Returned(rows)
            && var once := Mirrored(table, rows, {}, true);
               && once == Holding(rows)
               && Mirrored(once, rows, {}, true) == once
  {
    if Serves(pages, rows) {
      StableLeaderIsPulled(pages, universe, rows);
    } else {
      UnpagedLeaderIsPulled(pages, universe, rows);
    }
    PullDecidesTheMirror(table, rows);
    PullDecidesTheMirror(Holding(rows), rows);
  }

  /** The table has this row. */
  predicate Has(table: Table, row: Item) {
    row.Row? && row.id in table && table[row.id] == row.data
  }

  lemma HoldingIs(table: Table, rows: seq<Item>)
    requires Catalogue(rows)
    ensures table == Holding(rows) <==> table.Keys <= Ids(rows) && forall i :: 0 <= i < |rows| ==> Has(table, rows[i])
  {
    HoldsEachRow(rows);
    if table.Keys <= Ids(rows) && forall i :: 0 <= i < |rows| ==> Has(table, rows[i]) {
      forall id | id in Ids(rows) ensures id in table && table[id] == Holding(rows)[id] {
        var r :| r in rows && r.Row? && r.id == id;
        var i :| 0 <= i < |rows| && rows[i] == r;
        assert Has(table, rows[i]);
      }
      assert table.Keys == Holding(rows).Keys;
    }
  }

  /** What saving some rows does to one row: it is there if it was, or is among them and its save lands. */
  lemma {:induction false} SavedRow(table: Table, rows: seq<Item>, n: nat, lost: set<nat>, i: nat)
    requires Catalogue(rows) && n <= |rows| && i < |rows|
    ensures Has(Upserted(table, rows, n, lost), rows[i]) <==> (i < n && i !in lost) || Has(table, rows[i])
  {
    if n > 0 {
      SavedRow(table, rows, n - 1, lost, i);
      assert i != n - 1 ==> rows[i].id != rows[n - 1].id;
    }
  }

  lemma {:induction false} SavedKeys(table: Table, rows: seq<Item>, n: nat, lost: set<nat>)
    requires Rows(rows) && n <= |rows|
    ensures table.Keys <= Upserted(table, rows, n, lost).Keys <= table.Keys + Ids(rows)
  {
    if n > 0 {
      SavedKeys(table, rows, n - 1, lost);
      assert rows[n - 1] in rows;
    }
  }

  lemma {:induction false} SavedPrefix(table: Table, rows: seq<Item>, m: nat, n: nat, lost: set<nat>)
    requires Catalogue(rows) && n <= m <= |rows|
    ensures Upserted(table, rows[..m], n, lost) == Upserted(table, rows, n, lost)
  {
    if n > 0 { SavedPrefix(table, rows, m, n - 1, lost); }
  }

  /** Deleting all ids but these keeps exactly the rows with these ids. */
  lemma Deleted(table: Table, ids: set<Id>, row: Item)
    requires row.Row?
    ensures Has(table - (table.Keys - ids), row) <==> Has(table, row) && row.id in ids
    ensures (table - (table.Keys - ids)).Keys == table.Keys * ids
  {
  }

  lemma PrefixIds(rows: seq<Item>, m: nat, i: nat)
    requires Catalogue(rows) && m <= |rows| && i < |rows|
    ensures Catalogue(rows[..m]) && Ids(rows[..m]) <= Ids(rows)
    ensures rows[i].id in Ids(rows[..m]) <==> i < m
  {
    if i < m {
      assert rows[..m][i] == rows[i] && rows[i] in rows[..m];
    }
  }

  /** What the follower's table says about a row of the leader's, after the first `m` rows were pulled. */
  lemma MirroredRow(table: Table, rows: seq<Item>, m: nat, lost: set<nat>, reconciles: bool, i: nat)
    requires Catalogue(rows) && m <= |rows| && i < |rows|
    ensures Catalogue(rows[..m])
    ensures var after := Mirrored(table, rows[..m], lost, reconciles);
            && (Has(after, rows[i]) <==>
                 (i < m && i !in lost) || (Has(table, rows[i]) && (i < m || m == 0 || !reconciles)))
            && (m > 0 && reconciles ==> after.Keys <= Ids(rows))
            && (m == 0 || !reconciles ==> (after.Keys <= Ids(rows) <==> table.Keys <= Ids(rows)))
  {
    var kept := rows[..m];
    var saved := Upserted(table, kept, m, lost);
    PrefixIds(rows, m, i);
    SavedPrefix(table, rows, m, m, lost);
    SavedRow(table, rows, m, lost, i);
    SavedKeys(table, kept, m, lost);
    Deleted(saved, Ids(kept), rows[i]);
  }

  /** The pull may be exact in spite of everything only if the follower already had what did not come. */
  predicate Exact(table: Table, rows: seq<Item>, m: nat, lost: set<nat>, reconciles: bool)
    requires m <= |rows|
  {
    if m > 0 && reconciles then m == |rows| && forall i: nat | i < |rows| && i in lost :: Has(table, rows[i])
    else table.Keys <= Ids(rows) && forall i: nat | i < |rows| && (i >= m || i in lost) :: Has(table, rows[i])
  }

  /**
    When the follower mirrors the leader exactly. Whatever the leader's catalogue, whichever
    request fails, whichever saves are lost and whether or not the reconcile runs: after a
    non-empty pull that is reconciled, exactly if every page came and every row whose save was
    lost was already there; otherwise, and after every empty pull, exactly if the follower had
    no other rows, and every row that was not saved was already there.
   */
  lemma MirrorIsExactExactlyIf(pages: Pages, universe: set<Id>, rows: seq<Item>, good: nat, table: Table,
                               lost: set<nat>, reconciles: bool)
    requires Within(pages, universe) && Catalogue(rows) && ServesUntil(pages, rows, good)
    ensures var pulled, m := Pull(pages, universe, 0, {}), Min(Offset(good), |rows|);
            && pulled == Returned(rows[..m]) && Rows(pulled.value)
            && (Mirrored(table, pulled.value, lost, reconciles) == Holding(rows) <==>
                Exact(table, rows, m, lost, reconciles))
  {
    var m := Min(Offset(good), |rows|);
    FailedPageTruncates(pages, universe, rows, good);
    forall i: nat | i < |rows|
      ensures Has(Mirrored(table, rows[..m], lost, reconciles), rows[i]) <==>
              (i < m && i !in lost) || (Has(table, rows[i]) && (i < m || m == 0 || !reconciles))
    {
      MirroredRow(table, rows, m, lost, reconciles, i);
    }
    if rows == [] {
      assert rows[..m] == [];
    } else {
      MirroredRow(table, rows, m, lost, reconciles, 0);
    }
    HoldingIs(Mirrored(table, rows[..m], lost, reconciles), rows);
    ExactRows(table, rows, m, lost, reconciles);
  }

  /** The condition, row by row. */
  lemma ExactRows(table: Table, rows: seq<Item>, m: nat, lost: set<nat>, reconciles: bool)
    requires m <= |rows|
    ensures Exact(table, rows, m, lost, reconciles) <==>
            && ((m > 0 && reconciles) || table.Keys <= Ids(rows))
            && forall i: nat | i < |rows| ::
                 (i < m && i !in lost) || (Has(table, rows[i]) && (i < m || m == 0 || !reconciles))
  {
    if m > 0 && reconciles && m < |rows| {
      assert !((m < m && m !in lost) || (Has(table, rows[m]) && (m < m || m == 0 || !reconciles)));
    }
  }

  /** If a later page fails, every row after it is deleted. */
  lemma FailedPageDeletes(pages: Pages, universe: set<Id>, rows: seq<Item>, good: nat, table: Table)
    requires Within(pages, universe) && Catalogue(rows) && rows != []
    requires good > 0 && ServesUntil(pages, rows, good)
    ensures var pulled := Pull(pages, universe, 0, {});
            && pulled.Returned? && Rows(pulled.value)
            && var after := Mirrored(table, pulled.value, {}, true);
               && after.Keys == Ids(rows[..Min(Offset(good), |rows|)])
               && (after == Holding(rows) <==> |rows| <= Offset(good))
  {
    FailedPageTruncates(pages, universe, rows, good);
    PullDecidesTheMirror(table, rows[..Min(Offset(good), |rows|)]);
    MirrorIsExactExactlyIf(pages, universe, rows, good, table, {}, true);
  }

  /** An empty pull changes nothing: neither a first page that fails nor a leader without rows deletes anything. */
  lemma EmptyPullChangesNothing(table: Table, lost: set<nat>, reconciles: bool)
    ensures Mirrored(table, [], lost, reconciles) == table
  {
  }

  /** Order sync adds and refreshes the leader's rows, keeps all others, and is idempotent. */
  lemma OrdersAreAdded(rows: seq<Item>, table: Table)
    requires Catalogue(rows)
    ensures var once := Upserted(table, rows, |rows|, {});
            && once == table + Holding(rows)
            && Upserted(once, rows, |rows|, {}) == once
  {
    UpsertsOverlay(table, rows, |rows|);
    UpsertsOverlay(Upserted(table, rows, |rows|, {}), rows, |rows|);
    OnlyOverlay(table, Holding(rows));
  }
}
