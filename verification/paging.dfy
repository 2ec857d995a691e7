/**
 The finders that list rows: all of them, one page by number, and one page by the last id seen. They read
 the table, not the cache.
 */
module Paging {
  import opened CacheAside
  import opened Int64

  type Where<!K(==), !B> = Row<K, B> -> bool

  // ----- the statements -----

  predicate Matches<K(==), B>(table: Table<K, B>, where_: Where<K, B>, id: int) {
    id in table && table[id].IsLive() && where_(table[id])
  }

  /** The live matching rows with ids up to `n`, `order by id desc`. */
  function Scan<K(==), B>(table: Table<K, B>, where_: Where<K, B>, n: nat): seq<Row<K, B>> {
    if n == 0 then []
    else if Matches(table, where_, n) then [table[n]] + Scan(table, where_, n - 1)
    else Scan(table, where_, n - 1)
  }

  /** `count(id)` of the same rows. */
  function Count<K(==), B>(table: Table<K, B>, where_: Where<K, B>, n: nat): nat {
    if n == 0 then 0 else Count(table, where_, n - 1) + if Matches(table, where_, n) then 1 else 0
  }

  function Take<X>(rows: seq<X>, limit: nat): seq<X> {
    if limit < |rows| then rows[..limit] else rows
  }

  function Skip<X>(rows: seq<X>, offset: nat): seq<X> {
    if offset < |rows| then rows[offset..] else []
  }

  // ----- the finders -----

  /** Go's conversion of an int64 to uint64. */
  function AsUint64(x: int): nat
    requires IsInt64(x)
  {
    if x < 0 then x + 0x1_0000_0000_0000_0000 else x
  }

  /** No id is larger. */
  function MaxId<K(==), B>(s: Store<K, B>): nat {
    if s.nextId > 0 then s.nextId - 1 else 0
  }

  function FindAll<K(==), B>(s: Store<K, B>, where_: Where<K, B>): seq<Row<K, B>> {
    Scan(s.table, where_, MaxId(s))
  }

  function FindCount<K(==), B>(s: Store<K, B>, where_: Where<K, B>): nat {
    Count(s.table, where_, MaxId(s))
  }

  function FindPageListByPage<K(==), B>(s: Store<K, B>, where_: Where<K, B>, page: int, pageSize: int): seq<Row<K, B>>
    requires IsInt64(page) && IsInt64(pageSize)
  {
    var page' := if page < 1 then 1 else page;
    var offset := Wrap((page' - 1) * pageSize);
    Take(Skip(Scan(s.table, where_, MaxId(s)), AsUint64(offset)), AsUint64(pageSize))
  }

  function BelowId<K(==), B>(where_: Where<K, B>, preMinId: int): Where<K, B> {
    if preMinId > 0 then (row: Row<K, B>) => where_(row) && row.id < preMinId else where_
  }

  function FindPageListByIdDESC<K(==), B>(s: Store<K, B>, where_: Where<K, B>, preMinId: int, pageSize: int): seq<Row<K, B>>
    requires IsInt64(pageSize)
  {
    Take(Scan(s.table, BelowId(where_, preMinId), MaxId(s)), AsUint64(pageSize))
  }

  // ----- what a scan holds -----

  ghost predicate IdsMatch<K, B>(table: Table<K, B>) {
    forall id <- table.Keys :: table[id].id == id
  }

  /** Strictly, so no row twice. */
  ghost predicate IsDescending<K, B>(rows: seq<Row<K, B>>) {
    forall i, j | 0 <= i < j < |rows| :: rows[j].id < rows[i].id
  }

  /** A live matching row of the table, as it is now, with an id up to `n`. */
  ghost predicate IsMatch<K, B>(table: Table<K, B>, where_: Where<K, B>, n: nat, row: Row<K, B>) {
    0 < row.id <= n && Matches(table, where_, row.id) && table[row.id] == row
  }

  lemma {:induction false} ScanHoldsMatches<K, B>(table: Table<K, B>, where_: Where<K, B>, n: nat)
    requires IdsMatch(table)
    ensures var rows := Scan(table, where_, n);
      IsDescending(rows) && forall k | 0 <= k < |rows| :: IsMatch(table, where_, n, rows[k])
  {
    if n == 0 {
    } else {
      ScanHoldsMatches(table, where_, n - 1);
      var rest := Scan(table, where_, n - 1);
      forall k | 0 <= k < |rest| ensures IsMatch(table, where_, n, rest[k]) {
        assert IsMatch(table, where_, n - 1, rest[k]);
      }
    }
  }

  lemma {:induction false} ScanFindsMatch<K, B>(table: Table<K, B>, where_: Where<K, B>, n: nat, id: int) returns (k: nat)
    requires 0 < id <= n && Matches(table, where_, id)
    ensures k < |Scan(table, where_, n)| && Scan(table, where_, n)[k] == table[id]
  {
    if id == n {
      k := 0;
    } else {
      k := ScanFindsMatch(table, where_, n - 1, id);
      if Matches(table, where_, n) {
        k := k + 1;
      }
    }
  }

  lemma {:induction false} CountIsLength<K, B>(table: Table<K, B>, where_: Where<K, B>, n: nat)
    ensures Count(table, where_, n) == |Scan(table, where_, n)|
  {
    if n == 0 {
    } else {
      CountIsLength(table, where_, n - 1);
    }
  }

  function Min(a: int, b: int): int {
    if a < b then a else b
  }

  /** The `id < ?` clause cuts the scan short. */
  lemma {:induction false} BelowIdCutsScan<K, B>(table: Table<K, B>, where_: Where<K, B>, last: int, n: nat)
    requires IdsMatch(table) && last > 0
    ensures Scan(table, BelowId(where_, last), n) == Scan(table, where_, Min(n, last - 1))
  {
    if n == 0 {
    } else {
      BelowIdCutsScan(table, where_, last, n - 1);
    }
  }

  /** What follows the row at position `j` is the scan below its id. */
  lemma {:induction false} ScanBelowRow<K, B>(table: Table<K, B>, where_: Where<K, B>, n: nat, j: nat)
    requires IdsMatch(table) && j < |Scan(table, where_, n)|
    ensures 0 < Scan(table, where_, n)[j].id <= n
    ensures Scan(table, where_, Scan(table, where_, n)[j].id - 1) == Scan(table, where_, n)[j + 1..]
  {
    var rows := Scan(table, where_, n);
    if !Matches(table, where_, n) {
      ScanBelowRow(table, where_, n - 1, j);
    } else if j > 0 {
      ScanBelowRow(table, where_, n - 1, j - 1);
      assert rows[1..] == Scan(table, where_, n - 1);
      assert rows[j + 1..] == rows[1..][j..];
    }
  }

  // ----- one page -----

  /** The id from which a page starts downwards. */
  function Top<K(==), B>(s: Store<K, B>, last: int): nat {
    if last > 0 then Min(MaxId(s), last - 1) else MaxId(s)
  }

  /** A page is the first rows of the scan that starts below the last id. */
  lemma PageIsScan<K, B>(s: Store<K, B>, where_: Where<K, B>, last: int, pageSize: int)
    requires IdsMatch(s.table) && IsInt64(pageSize)
    ensures FindPageListByIdDESC(s, where_, last, pageSize) == Take(Scan(s.table, where_, Top(s, last)), AsUint64(pageSize))
  {
    if last > 0 {
      BelowIdCutsScan(s.table, where_, last, MaxId(s));
    }
  }

  /** A page holds live matching rows below the last id, as they are now, largest id first. */
  lemma PageHoldsTheLargest<K, B>(s: Store<K, B>, where_: Where<K, B>, last: int, pageSize: int)
    requires IdsMatch(s.table) && IsInt64(pageSize)
    ensures var page := FindPageListByIdDESC(s, where_, last, pageSize);
      && IsDescending(page)
      && forall k | 0 <= k < |page| :: IsMatch(s.table, where_, Top(s, last), page[k])
  {
    PageIsScan(s, where_, last, pageSize);
    ScanHoldsMatches(s.table, where_, Top(s, last));
  }

  /** The rows of a page that begins at position `offset` of the whole list. */
  ghost predicate IsSlice<X>(all: seq<X>, offset: nat, limit: nat, page: seq<X>) {
    && |page| == (if offset < |all| then Min(limit, |all| - offset) else 0)
    && forall i | 0 <= i < |page| :: page[i] == all[offset + i]
  }

  /** The limit is what cuts a page: it holds as many rows as were asked for, or all there are below the last id. */
  lemma PageSizeIsLimit<K, B>(s: Store<K, B>, where_: Where<K, B>, last: int, pageSize: int)
    requires IdsMatch(s.table) && IsInt64(pageSize)
    ensures |FindPageListByIdDESC(s, where_, last, pageSize)| == Min(AsUint64(pageSize), Count(s.table, where_, Top(s, last)))
    ensures pageSize < 0 && FindCount(s, where_) < 0x8000_0000_0000_0000 ==>
              |FindPageListByIdDESC(s, where_, last, pageSize)| == Count(s.table, where_, Top(s, last))
  {
    PageIsScan(s, where_, last, pageSize);
    CountIsLength(s.table, where_, Top(s, last));
    CountGrows(s.table, where_, Top(s, last), MaxId(s));
  }

  lemma {:induction false} CountGrows<K, B>(table: Table<K, B>, where_: Where<K, B>, m: nat, n: nat)
    requires m <= n
    ensures Count(table, where_, m) <= Count(table, where_, n)
    decreases n
  {
    if m == n {
    } else {
      CountGrows(table, where_, m, n - 1);
    }
  }

  /** A stored row: live, accepted by the filter, and below the last id if there is one. */
  ghost predicate IsListed<K, B>(s: Store<K, B>, where_: Where<K, B>, last: int, row: Row<K, B>) {
    && row.id in s.table && s.table[row.id] == row
    && row.delState == 0 && where_(row) && (last > 0 ==> row.id < last)
  }

  lemma PageRowsAreListed<K, B>(s: Store<K, B>, where_: Where<K, B>, last: int, pageSize: int, k: nat)
    requires IdsMatch(s.table) && IsInt64(pageSize) && k < |FindPageListByIdDESC(s, where_, last, pageSize)|
    ensures IsListed(s, where_, last, FindPageListByIdDESC(s, where_, last, pageSize)[k])
  {
    PageHoldsTheLargest(s, where_, last, pageSize);
    assert IsMatch(s.table, where_, Top(s, last), FindPageListByIdDESC(s, where_, last, pageSize)[k]);
  }

  /** The whole list: largest id first, so no row twice, and a row is in it exactly if it is listed. */
  lemma FindAllHoldsExactly<K, B>(s: Store<K, B>, where_: Where<K, B>, row: Row<K, B>)
    requires WellFormed(s)
    ensures IsDescending(FindAll(s, where_))
    ensures (exists k :: 0 <= k < |FindAll(s, where_)| && FindAll(s, where_)[k] == row) <==> IsListed(s, where_, 0, row)
  {
    ScanHoldsMatches(s.table, where_, MaxId(s));
    var rows := FindAll(s, where_);
    if IsListed(s, where_, 0, row) {
      var k := ScanFindsMatch(s.table, where_, MaxId(s), row.id);
      assert rows[k] == row;
    }
    forall k | 0 <= k < |rows| && rows[k] == row ensures IsListed(s, where_, 0, row) {
      assert IsMatch(s.table, where_, MaxId(s), rows[k]);
    }
  }

  /** A matching row that a page leaves out is below all that it holds; with a page size other than zero, it holds some. */
  lemma PageLeavesOutTheSmallest<K, B>(s: Store<K, B>, where_: Where<K, B>, last: int, pageSize: int, id: int) returns (k: nat)
    requires IdsMatch(s.table) && IsInt64(pageSize) && pageSize != 0
    requires 0 < id <= Top(s, last) && Matches(s.table, where_, id)
    ensures var page := FindPageListByIdDESC(s, where_, last, pageSize);
      && page != []
      && if k < |page| then page[k] == s.table[id] else id < page[|page| - 1].id
  {
    PageIsScan(s, where_, last, pageSize);
    ScanHoldsMatches(s.table, where_, Top(s, last));
    k := ScanFindsMatch(s.table, where_, Top(s, last), id);
  }

  // ----- walking the pages of a changing table -----

  /**
   The pages a caller sees, asking each time for what is below the last id, until a page is empty.
   `stores` are the states of the table at the times of the requests.
   */
  function Walk<K(==), B>(stores: seq<Store<K, B>>, where_: Where<K, B>, pageSize: int, last: int): seq<seq<Row<K, B>>>
    requires IsInt64(pageSize)
    decreases |stores|
  {
    if stores == [] then []
    else
      var page := FindPageListByIdDESC(stores[0], where_, last, pageSize);
      if page == [] then [] else [page] + Walk(stores[1..], where_, pageSize, page[|page| - 1].id)
  }

  ghost predicate AllIdsMatch<K, B>(stores: seq<Store<K, B>>) {
    forall i | 0 <= i < |stores| :: IdsMatch(stores[i].table)
  }

  ghost predicate EachBelow<K, B>(lower: seq<Row<K, B>>, upper: seq<Row<K, B>>) {
    forall i, j | 0 <= i < |lower| && 0 <= j < |upper| :: lower[i].id < upper[j].id
  }

  /** Within a page and from page to page, ids only go down. */
  ghost predicate Descends<K, B>(pages: seq<seq<Row<K, B>>>) {
    && (forall k | 0 <= k < |pages| :: IsDescending(pages[k]))
    && (forall k, l | 0 <= k < l < |pages| :: EachBelow(pages[l], pages[k]))
  }

  ghost predicate PageWithin<K, B>(page: seq<Row<K, B>>, last: int) {
    page != [] && forall i | 0 <= i < |page| :: 0 < page[i].id && (last > 0 ==> page[i].id < last)
  }

  /** Whatever happens to the table between the requests, ids only go down, so no row is returned twice. */
  lemma {:induction false} WalkNeverRepeats<K, B>(stores: seq<Store<K, B>>, where_: Where<K, B>, pageSize: int, last: int)
    requires AllIdsMatch(stores) && IsInt64(pageSize)
    ensures var walk := Walk(stores, where_, pageSize, last);
      Descends(walk) && forall k | 0 <= k < |walk| :: PageWithin(walk[k], last)
    decreases |stores|
  {
    if stores == [] {
    } else {
      var page := FindPageListByIdDESC(stores[0], where_, last, pageSize);
      PageHoldsTheLargest(stores[0], where_, last, pageSize);
      if page != [] {
        var next := page[|page| - 1].id;
        WalkNeverRepeats(stores[1..], where_, pageSize, next);
        assert forall i | 0 <= i < |page| :: IsMatch(stores[0].table, where_, Top(stores[0], last), page[i]);
        PrependPage(page, Walk(stores[1..], where_, pageSize, next), last);
      }
    }
  }

  lemma PrependPage<K, B>(page: seq<Row<K, B>>, rest: seq<seq<Row<K, B>>>, last: int)
    requires IsDescending(page) && PageWithin(page, last)
    requires Descends(rest) && forall k | 0 <= k < |rest| :: PageWithin(rest[k], page[|page| - 1].id)
    ensures Descends([page] + rest) && forall k | 0 <= k < |[page] + rest| :: PageWithin(([page] + rest)[k], last)
  {
    var walk := [page] + rest;
    forall k, l | 0 <= k < l < |walk| ensures EachBelow(walk[l], walk[k]) {
      assert walk[l] == rest[l - 1];
      assert k > 0 ==> walk[k] == rest[k - 1];
    }
    forall k | 0 <= k < |walk| ensures PageWithin(walk[k], last) && IsDescending(walk[k]) {
      assert k > 0 ==> walk[k] == rest[k - 1];
    }
  }

  /** Last ids only go down, so a walk comes to an empty page, after at most as many pages as there are ids. */
  lemma {:induction false} WalkTerminates<K, B>(stores: seq<Store<K, B>>, where_: Where<K, B>, pageSize: int, last: int)
    requires AllIdsMatch(stores) && IsInt64(pageSize) && stores != []
    ensures |Walk(stores, where_, pageSize, last)| <= Top(stores[0], last)
    decreases |stores|
  {
    var page := FindPageListByIdDESC(stores[0], where_, last, pageSize);
    PageHoldsTheLargest(stores[0], where_, last, pageSize);
    if page != [] {
      assert IsMatch(stores[0].table, where_, Top(stores[0], last), page[|page| - 1]);
      if |stores| > 1 {
        WalkTerminates(stores[1..], where_, pageSize, page[|page| - 1].id);
      }
    }
  }

  ghost predicate MatchesIn<K, B>(s: Store<K, B>, where_: Where<K, B>, id: int) {
    0 < id <= MaxId(s) && Matches(s.table, where_, id)
  }

  /** The row was live and matching at each request of the walk. */
  ghost predicate StaysMatching<K, B>(stores: seq<Store<K, B>>, where_: Where<K, B>, id: int) {
    forall i | 0 <= i < |stores| :: MatchesIn(stores[i], where_, id)
  }

  lemma WalkStep<K, B>(stores: seq<Store<K, B>>, s: Store<K, B>, rest: seq<Store<K, B>>, where_: Where<K, B>, pageSize: int, last: int)
    requires IsInt64(pageSize) && stores != [] && stores[0] == s && stores[1..] == rest
    ensures var page := FindPageListByIdDESC(s, where_, last, pageSize);
      Walk(stores, where_, pageSize, last)
      == if page == [] then [] else [page] + Walk(rest, where_, pageSize, page[|page| - 1].id)
  {
  }

  lemma StaysMatchingLater<K, B>(stores: seq<Store<K, B>>, where_: Where<K, B>, id: int, n: nat)
    requires n < |stores| && StaysMatching(stores[..n + 1], where_, id)
    ensures MatchesIn(stores[0], where_, id) && StaysMatching(stores[1..][..n], where_, id)
  {
    assert stores[..n + 1][0] == stores[0];
    var later := stores[1..][..n];
    forall i | 0 <= i < n ensures MatchesIn(later[i], where_, id) {
      assert later[i] == stores[..n + 1][i + 1];
    }
  }

  /**
   A finished walk returned every row that stayed live and matching throughout, as it was when its page was
   read; by WalkNeverRepeats, exactly once. With page size zero a walk finishes at once.
   */
  lemma {:induction false} WalkReturnsWhatStays<K, B>(stores: seq<Store<K, B>>, where_: Where<K, B>, pageSize: int, last: int, id: int)
    returns (k: nat, i: nat)
    requires AllIdsMatch(stores) && IsInt64(pageSize) && pageSize != 0
    requires |Walk(stores, where_, pageSize, last)| < |stores|
    requires StaysMatching(stores[..|Walk(stores, where_, pageSize, last)| + 1], where_, id) && (last > 0 ==> id < last)
    ensures var walk := Walk(stores, where_, pageSize, last);
      k < |walk| && i < |walk[k]| && id in stores[k].table && walk[k][i] == stores[k].table[id]
    decreases |stores|
  {
    var walk := Walk(stores, where_, pageSize, last);
    var page := FindPageListByIdDESC(stores[0], where_, last, pageSize);
    StaysMatchingLater(stores, where_, id, |walk|);
    i := PageLeavesOutTheSmallest(stores[0], where_, last, pageSize, id);
    if i < |page| {
      k := 0;
    } else {
      var next := page[|page| - 1].id;
      var rest := Walk(stores[1..], where_, pageSize, next);
      WalkStep(stores, stores[0], stores[1..], where_, pageSize, last);
      k, i := WalkReturnsWhatStays(stores[1..], where_, pageSize, next, id);
      assert walk[k + 1] == rest[k];
      k := k + 1;
    }
  }

  // ----- a table that does not change -----

  function Repeat<X>(x: X, n: nat): seq<X> {
    seq(n, _ => x)
  }

  function Concat<X>(pages: seq<seq<X>>): seq<X> {
    if pages == [] then [] else pages[0] + Concat(pages[1..])
  }

  /** The rows below `last` begin at position `j` of the whole list. */
  ghost predicate StartsAt<K, B>(s: Store<K, B>, where_: Where<K, B>, last: int, j: nat) {
    var all := FindAll(s, where_);
    j <= |all| && last == if j == 0 then 0 else all[j - 1].id
  }

  /** Where the page `k` pages after position `j` begins. */
  function Position(j: nat, k: nat, limit: nat): nat
    decreases k
  {
    if k == 0 then j else Position(j + limit, k - 1, limit)
  }

  lemma {:induction false} PositionIsProduct(j: nat, k: nat, limit: nat)
    ensures Position(j, k, limit) == j + k * limit
    decreases k
  {
    if k == 0 {
    } else {
      PositionIsProduct(j + limit, k - 1, limit);
      assert k * limit == (k - 1) * limit + limit;
    }
  }

  /** The page from position `j` on, and where the next one starts. */
  lemma PageFromPosition<K, B>(s: Store<K, B>, where_: Where<K, B>, last: int, pageSize: int, j: nat)
    requires IdsMatch(s.table) && IsInt64(pageSize) && pageSize > 0 && StartsAt(s, where_, last, j)
    ensures var all, page := FindAll(s, where_), FindPageListByIdDESC(s, where_, last, pageSize);
      && page == Take(all[j..], pageSize)
      && (page == [] <==> j == |all|)
      && (page != [] ==> StartsAt(s, where_, page[|page| - 1].id, j + |page|))
  {
    PageIsScan(s, where_, last, pageSize);
    if j > 0 {
      ScanBelowRow(s.table, where_, MaxId(s), j - 1);
    }
  }

  /** The walk over a table that stays `s`. */
  function SteadyWalk<K(==), B>(s: Store<K, B>, where_: Where<K, B>, pageSize: int, n: nat, last: int): seq<seq<Row<K, B>>>
    requires IsInt64(pageSize)
    decreases n
  {
    if n == 0 then []
    else
      var page := FindPageListByIdDESC(s, where_, last, pageSize);
      if page == [] then [] else [page] + SteadyWalk(s, where_, pageSize, n - 1, page[|page| - 1].id)
  }

  lemma RepeatTail<X>(x: X, n: nat)
    requires n > 0
    ensures Repeat(x, n) != [] && Repeat(x, n)[0] == x && Repeat(x, n)[1..] == Repeat(x, n - 1)
  {
  }

  lemma {:induction false} WalkOfRepeat<K, B>(s: Store<K, B>, where_: Where<K, B>, pageSize: int, n: nat, last: int)
    requires IsInt64(pageSize)
    ensures Walk(Repeat(s, n), where_, pageSize, last) == SteadyWalk(s, where_, pageSize, n, last)
    decreases n
  {
    if n == 0 {
    } else {
      RepeatTail(s, n);
      WalkStep(Repeat(s, n), s, Repeat(s, n - 1), where_, pageSize, last);
      var page := FindPageListByIdDESC(s, where_, last, pageSize);
      if page != [] {
        WalkOfRepeat(s, where_, pageSize, n - 1, page[|page| - 1].id);
      }
    }
  }

  /** A list cut into pages of `limit`, at most `n` of them, from position `j` on. */
  function Cut<X>(all: seq<X>, j: nat, limit: nat, n: nat): seq<seq<X>>
    decreases n
  {
    if n == 0 || j >= |all| then []
    else
      var page := Take(all[j..], limit);
      [page] + Cut(all, j + |page|, limit, n - 1)
  }

  lemma SteadyStep<K, B>(s: Store<K, B>, where_: Where<K, B>, pageSize: int, n: nat, last: int, page: seq<Row<K, B>>)
    requires IsInt64(pageSize) && n > 0 && page == FindPageListByIdDESC(s, where_, last, pageSize)
    ensures SteadyWalk(s, where_, pageSize, n, last)
         == if page == [] then [] else [page] + SteadyWalk(s, where_, pageSize, n - 1, page[|page| - 1].id)
  {
  }

  lemma CutStep<X>(all: seq<X>, j: nat, limit: nat, n: nat, page: seq<X>)
    requires n > 0 && j < |all| && page == Take(all[j..], limit)
    ensures Cut(all, j, limit, n) == [page] + Cut(all, j + |page|, limit, n - 1)
  {
  }

  lemma {:induction false} SteadyWalkCuts<K, B>(s: Store<K, B>, where_: Where<K, B>, pageSize: int, n: nat, last: int, j: nat)
    requires IdsMatch(s.table) && IsInt64(pageSize) && pageSize > 0 && StartsAt(s, where_, last, j)
    ensures SteadyWalk(s, where_, pageSize, n, last) == Cut(FindAll(s, where_), j, pageSize, n)
    decreases n
  {
    if n == 0 {
    } else {
      var page := FindPageListByIdDESC(s, where_, last, pageSize);
      PageFromPosition(s, where_, last, pageSize, j);
      SteadyStep(s, where_, pageSize, n, last, page);
      if page != [] {
        CutStep(FindAll(s, where_), j, pageSize, n, page);
        SteadyWalkCuts(s, where_, pageSize, n - 1, page[|page| - 1].id, j + |page|);
      }
    }
  }

  lemma CutTail<X>(all: seq<X>, j: nat, limit: nat, n: nat)
    requires n > 0 && j < |all|
    ensures var page, pages := Take(all[j..], limit), Cut(all, j, limit, n);
      pages != [] && pages[0] == page && pages[1..] == Cut(all, j + |page|, limit, n - 1)
  {
  }

  /** Page `k` begins at position `j + k * limit`; every page but the last is full. */
  lemma {:induction false} CutPageIsSlice<X>(all: seq<X>, j: nat, limit: nat, n: nat, k: nat)
    requires j <= |all| && limit > 0 && k < |Cut(all, j, limit, n)|
    ensures Cut(all, j, limit, n)[k] != [] && IsSlice(all, Position(j, k, limit), limit, Cut(all, j, limit, n)[k])
    decreases k
  {
    CutTail(all, j, limit, n);
    var page, pages := Take(all[j..], limit), Cut(all, j, limit, n);
    if k > 0 {
      assert pages[k] == pages[1..][k - 1];
      assert |page| == limit;
      CutPageIsSlice(all, j + limit, limit, n - 1, k - 1);
    }
  }

  /** Fewer than `n` pages are the whole list from `j` on. */
  lemma {:induction false} CutIsComplete<X>(all: seq<X>, j: nat, limit: nat, n: nat)
    requires j <= |all| && limit > 0 && |Cut(all, j, limit, n)| < n
    ensures Concat(Cut(all, j, limit, n)) == all[j..]
    decreases n
  {
    if j == |all| {
    } else {
      var page := Take(all[j..], limit);
      CutTail(all, j, limit, n);
      CutIsComplete(all, j + |page|, limit, n - 1);
      assert all[j..] == page + all[j + |page|..];
    }
  }

  // ----- when a numbered page is right -----

  lemma OffsetWraps(x: nat)
    ensures AsUint64(Wrap(x)) == x % 0x1_0000_0000_0000_0000
  {
  }

  lemma TakeIsSlice<X>(all: seq<X>, offset: nat, limit: nat)
    ensures IsSlice(all, offset, limit, Take(Skip(all, offset), limit))
  {
  }

  lemma SliceIsUnique<X>(all: seq<X>, offset: nat, limit: nat, a: seq<X>, b: seq<X>)
    requires IsSlice(all, offset, limit, a) && IsSlice(all, offset, limit, b)
    ensures a == b
  {
    forall i | 0 <= i < |a| ensures a[i] == b[i] {
      assert a[i] == all[offset + i];
    }
  }

  lemma WrappedOffsetIsRightIff<X>(all: seq<X>, x: nat, limit: nat)
    requires limit > 0 && |all| < 0x1_0000_0000_0000_0000
    ensures IsSlice(all, x, limit, Take(Skip(all, AsUint64(Wrap(x))), limit))
            <==> x < 0x1_0000_0000_0000_0000 || |all| <= x % 0x1_0000_0000_0000_0000
  {
    OffsetWraps(x);
    TakeIsSlice(all, x % 0x1_0000_0000_0000_0000, limit);
  }

  /**
   A numbered page holds the rows at places `(page - 1) * pageSize` and on of the whole list, at most
   `pageSize` of them, if and only if that offset fits 64 bits, or what it wraps to lies beyond the end anyway.
   Page numbers below one are page one.
   */
  lemma NumberedPageIsRightIff<K, B>(s: Store<K, B>, where_: Where<K, B>, page: int, pageSize: int)
    requires IsInt64(page) && IsInt64(pageSize) && 0 < pageSize
    requires FindCount(s, where_) < 0x1_0000_0000_0000_0000
    ensures var before := if page < 1 then 0 else page - 1;
      && 0 <= before * pageSize
      && (IsSlice(FindAll(s, where_), before * pageSize, pageSize, FindPageListByPage(s, where_, page, pageSize))
          <==> before * pageSize < 0x1_0000_0000_0000_0000
               || FindCount(s, where_) <= (before * pageSize) % 0x1_0000_0000_0000_0000)
  {
    var before := if page < 1 then 0 else page - 1;
    ProductIsNat(before, pageSize);
    CountIsLength(s.table, where_, MaxId(s));
    WrappedOffsetIsRightIff(FindAll(s, where_), before * pageSize, pageSize);
  }

  lemma ProductIsNat(a: nat, b: nat)
    ensures 0 <= a * b
  {
  }

  /** A page number far outside the table that brings the first page back. */
  lemma HugePageRepeatsTheFirst<K, B>(s: Store<K, B>, where_: Where<K, B>)
    ensures IsInt64(0x1_0000_0001) && IsInt64(0x1_0000_0000)
    ensures FindPageListByPage(s, where_, 0x1_0000_0001, 0x1_0000_0000) == FindPageListByPage(s, where_, 1, 0x1_0000_0000)
  {
    assert Wrap(0x1_0000_0000_0000_0000) == 0;
  }

  // ----- pages by id and by number -----

  /** `page` is the page number `k + 1`: what begins `k` full pages into the whole list. */
  ghost predicate IsNumberedPage<K, B>(s: Store<K, B>, where_: Where<K, B>, k: nat, pageSize: int, page: seq<Row<K, B>>)
    requires IsInt64(pageSize) && pageSize > 0
  {
    && IsInt64(k + 1) && page == FindPageListByPage(s, where_, k + 1, pageSize)
    && IsSlice(FindAll(s, where_), Position(0, k, pageSize), pageSize, page)
  }

  lemma NumberedPageIsSlice<K, B>(s: Store<K, B>, where_: Where<K, B>, k: nat, pageSize: int, page: seq<Row<K, B>>)
    requires IsInt64(pageSize) && pageSize > 0 && IsInt64(FindCount(s, where_))
    requires page != [] && IsSlice(FindAll(s, where_), Position(0, k, pageSize), pageSize, page)
    ensures IsNumberedPage(s, where_, k, pageSize, page)
  {
    CountIsLength(s.table, where_, MaxId(s));
    PositionIsProduct(0, k, pageSize);
    ProductBoundsFactor(k, pageSize);
    assert k + 1 - 1 == k;
    NumberedPageIsRightIff(s, where_, k + 1, pageSize);
    SliceIsUnique(FindAll(s, where_), k * pageSize, pageSize, page, FindPageListByPage(s, where_, k + 1, pageSize));
  }

  lemma ProductBoundsFactor(k: nat, p: int)
    requires 0 < p
    ensures k <= k * p
  {
  }

  /**
   On an unchanging table, the pages found by last id are the pages found by number, together they are all
   the rows, and the reported total is their count.
   */
  lemma KeysetPagesAreOffsetPages<K, B>(s: Store<K, B>, where_: Where<K, B>, pageSize: int, n: nat)
    requires IdsMatch(s.table) && IsInt64(pageSize) && pageSize > 0 && IsInt64(FindCount(s, where_))
    ensures var walk := Walk(Repeat(s, n), where_, pageSize, 0);
      && (forall k | 0 <= k < |walk| :: IsNumberedPage(s, where_, k, pageSize, walk[k]))
      && (|walk| < n ==> Concat(walk) == FindAll(s, where_))
    ensures |FindAll(s, where_)| == FindCount(s, where_)
  {
    WalkOfRepeat(s, where_, pageSize, n, 0);
    SteadyWalkCuts(s, where_, pageSize, n, 0, 0);
    if |Cut(FindAll(s, where_), 0, pageSize, n)| < n {
      CutIsComplete(FindAll(s, where_), 0, pageSize, n);
    }
    CountIsLength(s.table, where_, MaxId(s));
    var walk := Walk(Repeat(s, n), where_, pageSize, 0);
    forall k | 0 <= k < |walk| ensures IsNumberedPage(s, where_, k, pageSize, walk[k]) {
      CutPageIsSlice(FindAll(s, where_), 0, pageSize, n, k);
      NumberedPageIsSlice(s, where_, k, pageSize, walk[k]);
    }
  }
}
