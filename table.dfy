/**
 * js/ui-table.js, its selection logic: the module's sort, search and top-N
 * state, the filter that picks the rows to show, the in-place sort of those
 * rows, and the watchlist view. Building the DOM is replaced by the field
 * `shown`, the rows the table and the cards would lay out, in order.
 */
module Table {
  import Text
  import RowOrder

  type Row = RowOrder.Row

  const DEFAULT_FILTER_TOP := 100
  const DEFAULT_SORT := RowOrder.Sort("market_cap", RowOrder.Desc)

  /** r is s with some elements left out, the rest in their order. */
  predicate IsSubseq(r: seq<Row>, s: seq<Row>)
    decreases |s|
  {
    if r == [] then true
    else if s == [] then false
    else (r[0] == s[0] && IsSubseq(r[1..], s[1..])) || IsSubseq(r, s[1..])
  }

  /** Array.prototype.filter: every copy of a kept element is kept. */
  function Filter(s: seq<Row>, p: Row -> bool): (r: seq<Row>)
    ensures forall x :: x in r <==> x in s && p(x)
    ensures forall x :: multiset(r)[x] == if p(x) then multiset(s)[x] else 0
    ensures IsSubseq(r, s) && |r| <= |s|
  {
    if s == [] then []
    else
      assert s == [s[0]] + s[1..];
      if p(s[0]) then
        var rest := Filter(s[1..], p);
        assert ([s[0]] + rest)[1..] == rest;
        [s[0]] + rest
      else Filter(s[1..], p)
  }

  /** A subsequence of a subsequence is a subsequence. */
  lemma {:induction false} SubseqTrans(r: seq<Row>, s: seq<Row>, t: seq<Row>)
    requires IsSubseq(r, s) && IsSubseq(s, t)
    ensures IsSubseq(r, t)
    decreases |t|
  {
    if r != [] {
      assert s != [] && t != [];
      if s[0] == t[0] && IsSubseq(s[1..], t[1..]) {
        if r[0] == s[0] && IsSubseq(r[1..], s[1..]) {
          SubseqTrans(r[1..], s[1..], t[1..]);
        } else {
          SubseqTrans(r, s[1..], t[1..]);
        }
      } else {
        SubseqTrans(r, s, t[1..]);
      }
    }
  }

  /** Every sequence is a subsequence of itself. */
  lemma {:induction false} SubseqRefl(s: seq<Row>)
    ensures IsSubseq(s, s)
  {
    if s != [] {
      SubseqRefl(s[1..]);
    }
  }

  /**
   * items.slice(0, end): a negative end counts back from the length, and an
   * end past the length stops at it.
   */
  function Slice(items: seq<Row>, end: int): (r: seq<Row>)
    ensures |r| <= |items| && r == items[..|r|]
    ensures end >= 0 ==> |r| == if end < |items| then end else |items|
    ensures end < 0 ==> |r| == if |items| + end > 0 then |items| + end else 0
  {
    var stop := if end < 0 then (if |items| + end > 0 then |items| + end else 0)
                else (if end < |items| then end else |items|);
    items[..stop]
  }

  /** Whether the lower-cased name or symbol contains the query. */
  predicate Matches(row: Row, q: string)
  {
    Text.Includes(Text.ToLower(row.name), q) || Text.Includes(Text.ToLower(row.symbol), q)
  }

  /** applyFilters: the first filterTop rows, then those matching the search, if there is one. */
  function ApplyFilters(items: seq<Row>, filterTop: int, q: string): (r: seq<Row>)
    ensures IsSubseq(r, Slice(items, filterTop))
    ensures filterTop >= 0 ==> |r| <= filterTop
    ensures q == "" ==> r == Slice(items, filterTop)
    ensures q != "" ==> forall x :: x in r <==> x in Slice(items, filterTop) && Matches(x, q)
    ensures q != "" ==> forall x :: multiset(r)[x] == if Matches(x, q) then multiset(Slice(items, filterTop))[x] else 0
  {
    var top := Slice(items, filterTop);
    if q == "" then
      SubseqRefl(top);
      top
    else
      Filter(top, (x: Row) => Matches(x, q))
  }

  /** The rows applyFilters keeps form a subsequence of all the rows, in their order. */
  lemma ApplyFiltersSubseq(items: seq<Row>, filterTop: int, q: string)
    ensures IsSubseq(ApplyFilters(items, filterTop, q), items)
  {
    var top := Slice(items, filterTop);
    PrefixSubseq(items, |top|);
    SubseqTrans(ApplyFilters(items, filterTop, q), top, items);
  }

  lemma {:induction false} PrefixSubseq(s: seq<Row>, n: nat)
    requires n <= |s|
    ensures IsSubseq(s[..n], s)
  {
    if n > 0 {
      PrefixSubseq(s[1..], n - 1);
      assert s[..n][1..] == s[1..][..n - 1];
    } else {
      assert s[..n] == [];
    }
  }

  /** The watchlist view's selection: rows whose id is in the watchlist. */
  function OnWatchlist(rows: seq<Row>, watchlist: seq<string>): (r: seq<Row>)
    ensures forall x :: x in r <==> x in rows && x.id in watchlist
    ensures forall x :: multiset(r)[x] == if x.id in watchlist then multiset(rows)[x] else 0
    ensures IsSubseq(r, rows)
  {
    Filter(rows, (x: Row) => x.id in watchlist)
  }

  /** setSort: the same column flips the direction, a new column starts descending. */
  function NextSort(current: RowOrder.Sort, key: string): (r: RowOrder.Sort)
    ensures r.key == key
    ensures current.key == key ==> r.dir != current.dir
    ensures current.key != key ==> r.dir == RowOrder.Desc
  {
    if current.key == key then
      RowOrder.Sort(key, if current.dir == RowOrder.Asc then RowOrder.Desc else RowOrder.Asc)
    else RowOrder.Sort(key, RowOrder.Desc)
  }

  /**
   * Two clicks on the current column restore the sort; on another column
   * they leave it ascending.
   */
  lemma NextSortTwice(current: RowOrder.Sort, key: string)
    ensures current.key == key ==> NextSort(NextSort(current, key), key) == current
    ensures current.key != key ==> NextSort(NextSort(current, key), key) == RowOrder.Sort(key, RowOrder.Asc)
  {
  }

  /** sortItems on the fresh array that filter returned: the rows in comparator order. */
  method SortFresh(rows: seq<Row>, sort: RowOrder.Sort) returns (r: seq<Row>)
    ensures r == RowOrder.SortRows(sort, rows)
  {
    var a := new Row[|rows|](i requires 0 <= i < |rows| => rows[i]);
    assert a[..] == rows;
    RowOrder.SortItems(a, sort);
    r := a[..];
  }

  /** The module-level state of ui-table.js. */
  class TableState {
    var currentSort: RowOrder.Sort
    var searchQuery: string
    var filterTop: int
    var page: int
    var allRows: seq<Row>
    /** The rows last rendered, in display order. */
    var shown: seq<Row>

    constructor ()
      ensures currentSort == DEFAULT_SORT && searchQuery == "" && filterTop == DEFAULT_FILTER_TOP
      ensures page == 1 && allRows == [] && shown == []
    {
      currentSort := DEFAULT_SORT;
      searchQuery := "";
      filterTop := DEFAULT_FILTER_TOP;
      page := 1;
      allRows := [];
      shown := [];
    }

    /** What renderTable lays out: the filtered rows, sorted by the current sort. */
    function Visible(): seq<Row>
      reads this
    {
      RowOrder.SortRows(currentSort, ApplyFilters(allRows, filterTop, searchQuery))
    }

    /** renderTable: filters into a fresh array, sorts it in place, shows it. */
    method Render()
      modifies this
      ensures shown == Visible()
      ensures multiset(shown) == multiset(ApplyFilters(allRows, filterTop, searchQuery))
      ensures currentSort == old(currentSort) && searchQuery == old(searchQuery) && filterTop == old(filterTop)
      ensures page == old(page) && allRows == old(allRows)
    {
      var rows := ApplyFilters(allRows, filterTop, searchQuery);
      shown := SortFresh(rows, currentSort);
    }

    method SetFilterTop(n: int)
      modifies this
      ensures filterTop == n && shown == Visible()
      ensures currentSort == old(currentSort) && searchQuery == old(searchQuery)
      ensures page == old(page) && allRows == old(allRows)
    {
      filterTop := n;
      Render();
    }

    /** setSearch: the query is kept trimmed and lower-cased. */
    method SetSearch(q: string)
      modifies this
      ensures searchQuery == Text.ToLower(Text.Trim(q)) && shown == Visible()
      ensures currentSort == old(currentSort) && filterTop == old(filterTop)
      ensures page == old(page) && allRows == old(allRows)
    {
      searchQuery := Text.ToLower(Text.Trim(q));
      Render();
    }

    method SetSort(key: string)
      modifies this
      ensures currentSort == NextSort(old(currentSort), key) && shown == Visible()
      ensures searchQuery == old(searchQuery) && filterTop == old(filterTop)
      ensures page == old(page) && allRows == old(allRows)
    {
      currentSort := NextSort(currentSort, key);
      Render();
    }

    /** updateData: a fresh payload replaces the rows and the page goes back to 1. */
    method UpdateData(items: seq<Row>)
      modifies this
      ensures allRows == items && page == 1 && shown == Visible()
      ensures currentSort == old(currentSort) && searchQuery == old(searchQuery) && filterTop == old(filterTop)
    {
      allRows := items;
      page := 1;
      Render();
    }

    /**
     * filterToWatchlist: every row on the watchlist, whatever the top-N and
     * the search, sorted by the current sort.
     */
    method FilterToWatchlist(watchlist: seq<string>)
      modifies this
      ensures shown == RowOrder.SortRows(currentSort, OnWatchlist(allRows, watchlist))
      ensures forall x :: x in shown <==> x in allRows && x.id in watchlist
      ensures currentSort == old(currentSort) && searchQuery == old(searchQuery) && filterTop == old(filterTop)
      ensures page == old(page) && allRows == old(allRows)
    {
      var only := OnWatchlist(allRows, watchlist);
      shown := SortFresh(only, currentSort);
      RowOrder.SortRowsMembers(currentSort, only);
    }
  }
}
