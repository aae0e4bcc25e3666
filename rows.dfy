/**
 * The row ordering of js/ui-table.js sortItems: the per-column sort value
 * with its default for a missing field, the comparator `(va - vb) * mul` (or
 * localeCompare for the coin name), and the stable sort Array.prototype.sort
 * performs with it. Market figures are abstracted as integers.
 */
module RowOrder {
  import opened Wrappers
  import Text
  import StableSort

  /** One market row, as the markets endpoint returns it. */
  datatype Row = Row(
    id: string,
    name: string,
    symbol: string,
    marketCapRank: Option<int>,
    currentPrice: Option<int>,
    change1h: Option<int>,
    change24h: Option<int>,
    change7d: Option<int>,
    totalVolume: Option<int>,
    marketCap: Option<int>,
    circulatingSupply: Option<int>)

  datatype Dir = Asc | Desc

  /** The module's currentSort: a column key and a direction. */
  datatype Sort = Sort(key: string, dir: Dir)

  /** Number.MAX_SAFE_INTEGER, the rank of a row without one. */
  const MAX_SAFE_INTEGER: int := 9007199254740991

  /** The numeric sort value of a row for a key other than 'coin'; unknown keys give 0. */
  function NumValue(key: string, row: Row): int
  {
    match key
    case "rank" => row.marketCapRank.GetOr(MAX_SAFE_INTEGER)
    case "price" => row.currentPrice.GetOr(0)
    case "1h" => row.change1h.GetOr(0)
    case "24h" => row.change24h.GetOr(0)
    case "7d" => row.change7d.GetOr(0)
    case "volume" => row.totalVolume.GetOr(0)
    case "market_cap" => row.marketCap.GetOr(0)
    case "supply" => row.circulatingSupply.GetOr(0)
    case _ => 0
  }

  predicate KnownKey(key: string)
  {
    key in {"rank", "coin", "price", "1h", "24h", "7d", "volume", "market_cap", "supply"}
  }

  /** localeCompare, taken as code-point lexicographic order: negative, zero or positive. */
  function LexCompare(x: string, y: string): (c: int)
    ensures -1 <= c <= 1
    ensures c == 0 <==> x == y
  {
    if x == [] && y == [] then 0
    else if x == [] then -1
    else if y == [] then 1
    else if x[0] < y[0] then -1
    else if x[0] > y[0] then 1
    else
      var c := LexCompare(x[1..], y[1..]);
      assert x == [x[0]] + x[1..] && y == [y[0]] + y[1..];
      c
  }

  lemma {:induction false} LexCompareFlip(x: string, y: string)
    ensures LexCompare(x, y) == -LexCompare(y, x)
  {
    if x != [] && y != [] && x[0] == y[0] {
      LexCompareFlip(x[1..], y[1..]);
    }
  }

  lemma {:induction false} LexCompareTrans(x: string, y: string, z: string)
    requires LexCompare(x, y) <= 0 && LexCompare(y, z) <= 0
    ensures LexCompare(x, z) <= 0
  {
    if x != [] && y != [] && z != [] && x[0] == y[0] && y[0] == z[0] {
      LexCompareTrans(x[1..], y[1..], z[1..]);
    }
  }

  /** The comparator handed to items.sort: negative puts a first, positive puts b first. */
  function Compare(sort: Sort, a: Row, b: Row): int
  {
    var mul := if sort.dir == Asc then 1 else -1;
    if sort.key == "coin" then LexCompare(Text.ToLower(a.name), Text.ToLower(b.name)) * mul
    else (NumValue(sort.key, a) - NumValue(sort.key, b)) * mul
  }

  /** Swapping the arguments negates the comparator. */
  lemma CompareFlip(sort: Sort, a: Row, b: Row)
    ensures Compare(sort, a, b) == -Compare(sort, b, a)
  {
    if sort.key == "coin" {
      LexCompareFlip(Text.ToLower(a.name), Text.ToLower(b.name));
    }
  }

  /** "a may stay before c" is transitive. */
  lemma CompareTrans(sort: Sort, a: Row, b: Row, c: Row)
    requires Compare(sort, a, b) <= 0 && Compare(sort, b, c) <= 0
    ensures Compare(sort, a, c) <= 0
  {
    if sort.key == "coin" {
      var x, y, z := Text.ToLower(a.name), Text.ToLower(b.name), Text.ToLower(c.name);
      if sort.dir == Asc {
        LexCompareTrans(x, y, z);
      } else {
        LexCompareFlip(x, y);
        LexCompareFlip(y, z);
        LexCompareFlip(x, z);
        LexCompareTrans(z, y, x);
      }
    }
  }

  /** Ascending sorts by increasing value, descending by decreasing value. */
  lemma CompareDirection(sort: Sort, a: Row, b: Row)
    requires sort.key != "coin"
    ensures sort.dir == Asc ==> (Compare(sort, a, b) <= 0 <==> NumValue(sort.key, a) <= NumValue(sort.key, b))
    ensures sort.dir == Desc ==> (Compare(sort, a, b) <= 0 <==> NumValue(sort.key, a) >= NumValue(sort.key, b))
  {
  }

  /** Every row compares equal to every other under a key the switch does not know. */
  lemma UnknownKeyTies(sort: Sort, a: Row, b: Row)
    requires !KnownKey(sort.key)
    ensures Compare(sort, a, b) == 0
  {
  }

  /** The comparator as a function value, the argument items.sort receives. */
  function Comparator(sort: Sort): (Row, Row) -> int
  {
    (a, b) => Compare(sort, a, b)
  }

  /** Every column's comparator orders rows consistently, so the stable sort applies to it. */
  lemma ComparatorConsistent(sort: Sort)
    ensures StableSort.Consistent(Comparator(sort))
  {
    var cmp := Comparator(sort);
    forall a, b ensures cmp(a, b) == -cmp(b, a) {
      CompareFlip(sort, a, b);
    }
    forall a, b, c | cmp(a, b) <= 0 && cmp(b, c) <= 0 ensures cmp(a, c) <= 0 {
      CompareTrans(sort, a, b, c);
    }
  }

  /** What renderTable shows after sortItems: the rows in stable comparator order. */
  function SortRows(sort: Sort, s: seq<Row>): (r: seq<Row>)
    ensures multiset(r) == multiset(s)
    ensures StableSort.Sorted(Comparator(sort), r)
  {
    ComparatorConsistent(sort);
    StableSort.SortedBySort(Comparator(sort), s);
    StableSort.SortPermutes(Comparator(sort), s);
    StableSort.Sort(Comparator(sort), s)
  }

  /** Sorting neither drops nor invents rows. */
  lemma SortRowsMembers(sort: Sort, s: seq<Row>)
    ensures forall x :: x in SortRows(sort, s) <==> x in s
  {
    var r := SortRows(sort, s);
    forall x ensures x in r <==> x in s {
      assert x in r <==> x in multiset(r);
      assert x in s <==> x in multiset(s);
    }
  }

  /** Rows that tie with a row x under the sort keep their relative order. */
  lemma SortRowsStable(sort: Sort, s: seq<Row>, x: Row)
    ensures StableSort.Ties(Comparator(sort), x, SortRows(sort, s)) == StableSort.Ties(Comparator(sort), x, s)
  {
    ComparatorConsistent(sort);
    StableSort.SortStable(Comparator(sort), x, s);
  }

  /** Sorting by a column the switch does not know keeps the input order. */
  lemma UnknownKeyKeepsOrder(sort: Sort, s: seq<Row>)
    requires !KnownKey(sort.key)
    ensures SortRows(sort, s) == s
  {
    var cmp := Comparator(sort);
    forall i | 0 <= i < |s| - 1 ensures cmp(s[i], s[i + 1]) <= 0 {
      UnknownKeyTies(sort, s[i], s[i + 1]);
    }
    StableSort.SortOfSorted(cmp, s);
  }

  /** sortItems: items.sort(comparator) on the array, in place. */
  method SortItems(a: array<Row>, sort: Sort)
    modifies a
    ensures a[..] == SortRows(sort, old(a[..]))
  {
    StableSort.InsertionSort(a, Comparator(sort));
  }
}
