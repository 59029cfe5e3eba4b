/**
 * The sales table and the pandas operations the app applies to it: the
 * sidebar filter (`filter_data`), the product list (`get_unique_products`)
 * and the per-product series sorted by date.
 */
module Sales {
  import opened Calendar

  /** One row of the sales table. `Demand` is carried along and never computed on. */
  datatype Record = Record(
    date: Date,
    demand: real,
    productId: string,
    description: string,
    category: string,
    customer: string,
    customerClass: string)

  /** The columns the app compares against a single value. */
  datatype Column = ProductId | ProductCategory | CustomerName | CustomerClass

  function Field(r: Record, c: Column): string {
    match c
    case ProductId => r.productId
    case ProductCategory => r.category
    case CustomerName => r.customer
    case CustomerClass => r.customerClass
  }

  /** The sidebar entries that stand for "no constraint". */
  const AllCategories: string := "All Categories"
  const AllCustomers: string := "All Customers"
  const AllClasses: string := "All Classes"

  /** `a` occurs in `b` in order, possibly with gaps (greedy matching from the front). */
  predicate IsSubsequence(a: seq<Record>, b: seq<Record>)
    decreases |b|
  {
    a == [] || (b != [] && if a[0] == b[0] then IsSubsequence(a[1..], b[1..]) else IsSubsequence(a, b[1..]))
  }

  /**
   * A boolean-mask selection `rows[mask]`: exactly the rows that satisfy
   * `keep`, each as often as in `rows`, in their original order.
   */
  function Where(rows: seq<Record>, keep: Record -> bool): (r: seq<Record>)
    ensures forall i :: 0 <= i < |r| ==> keep(r[i])
    ensures forall x :: multiset(r)[x] == if keep(x) then multiset(rows)[x] else 0
    ensures IsSubsequence(r, rows)
  {
    if rows == [] then []
    else
      assert rows == [rows[0]] + rows[1..];
      var rest := Where(rows[1..], keep);
      if keep(rows[0]) then [rows[0]] + rest else rest
  }

  /** The mask `data[column] == value`. */
  function Matching(column: Column, value: string): Record -> bool {
    r => Field(r, column) == value
  }

  /** Both masks at once, `mask1 & mask2`. */
  function Both(p: Record -> bool, q: Record -> bool): Record -> bool {
    r => p(r) && q(r)
  }

  lemma {:induction false} WhereExtensional(rows: seq<Record>, p: Record -> bool, q: Record -> bool)
    requires forall x :: p(x) == q(x)
    ensures Where(rows, p) == Where(rows, q)
  {
    if rows != [] {
      WhereExtensional(rows[1..], p, q);
    }
  }

  lemma {:induction false} WhereKeepsAll(rows: seq<Record>, p: Record -> bool)
    requires forall x :: p(x)
    ensures Where(rows, p) == rows
  {
    if rows != [] {
      WhereKeepsAll(rows[1..], p);
      assert rows == [rows[0]] + rows[1..];
    }
  }

  /** Narrowing twice is narrowing once by both conditions. */
  lemma {:induction false} WhereWhere(rows: seq<Record>, p: Record -> bool, q: Record -> bool)
    ensures Where(Where(rows, p), q) == Where(rows, Both(p, q))
  {
    if rows != [] {
      WhereWhere(rows[1..], p, q);
      var rest := Where(rows[1..], p);
      if p(rows[0]) {
        var s := [rows[0]] + rest;
        assert s[0] == rows[0] && s[1..] == rest;
      }
    }
  }

  /** A row passes the sidebar filters: every criterion is its sentinel or equals the row's value. */
  predicate Selected(r: Record, category: string, customer: string, customerClass: string) {
    && (category == AllCategories || r.category == category)
    && (customer == AllCustomers || r.customer == customer)
    && (customerClass == AllClasses || r.customerClass == customerClass)
  }

  function Selection(category: string, customer: string, customerClass: string): Record -> bool {
    r => Selected(r, category, customer, customerClass)
  }

  /**
   * `filter_data`: a copy of the table narrowed by category, then customer,
   * then customer class, each step skipped when its value is the sentinel.
   * The input is a value, so it is left as it was.
   */
  function FilterData(data: seq<Record>, category: string, customer: string, customerClass: string): (r: seq<Record>)
    ensures category == AllCategories && customer == AllCustomers && customerClass == AllClasses ==> r == data
  {
    var byCategory := if category != AllCategories then Where(data, Matching(ProductCategory, category)) else data;
    var byCustomer := if customer != AllCustomers then Where(byCategory, Matching(CustomerName, customer)) else byCategory;
    if customerClass != AllClasses then Where(byCustomer, Matching(CustomerClass, customerClass)) else byCustomer
  }

  /**
   * The three successive narrowings select, in one pass, the rows that match
   * every criterion; with `Where`'s contract: exactly those rows, each as
   * often as in the input, in the input's order.
   */
  lemma FilterDataSelects(data: seq<Record>, category: string, customer: string, customerClass: string)
    ensures FilterData(data, category, customer, customerClass) == Where(data, Selection(category, customer, customerClass))
  {
    var p1: Record -> bool := (r: Record) => category == AllCategories || r.category == category;
    var p2: Record -> bool := (r: Record) => customer == AllCustomers || r.customer == customer;
    var p3: Record -> bool := (r: Record) => customerClass == AllClasses || r.customerClass == customerClass;
    var s1 := if category != AllCategories then Where(data, Matching(ProductCategory, category)) else data;
    var s2 := if customer != AllCustomers then Where(s1, Matching(CustomerName, customer)) else s1;
    var s3 := if customerClass != AllClasses then Where(s2, Matching(CustomerClass, customerClass)) else s2;
    assert s1 == Where(data, p1) by {
      if category != AllCategories { WhereExtensional(data, Matching(ProductCategory, category), p1); }
      else { WhereKeepsAll(data, p1); }
    }
    assert s2 == Where(s1, p2) by {
      if customer != AllCustomers { WhereExtensional(s1, Matching(CustomerName, customer), p2); }
      else { WhereKeepsAll(s1, p2); }
    }
    assert s3 == Where(s2, p3) by {
      if customerClass != AllClasses { WhereExtensional(s2, Matching(CustomerClass, customerClass), p3); }
      else { WhereKeepsAll(s2, p3); }
    }
    WhereWhere(data, p1, p2);
    WhereWhere(data, Both(p1, p2), p3);
    WhereExtensional(data, Both(Both(p1, p2), p3), Selection(category, customer, customerClass));
  }

  /**
   * `filter_data` returns exactly the rows that match every criterion that is
   * not its sentinel, each as often as in the input, in the input's order.
   */
  lemma FilterDataExactRows(data: seq<Record>, category: string, customer: string, customerClass: string)
    ensures var r := FilterData(data, category, customer, customerClass);
      && (forall i :: 0 <= i < |r| ==> Selected(r[i], category, customer, customerClass))
      && (forall x :: multiset(r)[x] == if Selected(x, category, customer, customerClass) then multiset(data)[x] else 0)
      && IsSubsequence(r, data)
  {
    FilterDataSelects(data, category, customer, customerClass);
  }

  /** The `Product ID` column. */
  function ProductIds(rows: seq<Record>): (ids: seq<string>)
    ensures |ids| == |rows| && forall i :: 0 <= i < |rows| ==> ids[i] == rows[i].productId
  {
    seq(|rows|, i requires 0 <= i < |rows| => rows[i].productId)
  }

  /** Position of the first occurrence of `x` in `s`. */
  function FirstIndex(s: seq<string>, x: string): (k: nat)
    requires x in s
    ensures k < |s| && s[k] == x
    ensures forall j :: 0 <= j < k ==> s[j] != x
  {
    if s[0] == x then 0 else 1 + FirstIndex(s[1..], x)
  }

  /** `Series.unique()`: the values of `s` without repetition, scanning from the front. */
  function Distinct(s: seq<string>): (u: seq<string>)
    ensures forall i, j :: 0 <= i < j < |u| ==> u[i] != u[j]
    ensures forall x :: x in u <==> x in s
  {
    if s == [] then []
    else
      var init, last := s[..|s| - 1], s[|s| - 1];
      assert s == init + [last];
      var u := Distinct(init);
      if last in u then u else u + [last]
  }

  lemma FirstIndexOfPrefix(s: seq<string>, t: seq<string>, x: string)
    requires x in s
    ensures FirstIndex(s + t, x) == FirstIndex(s, x)
  {
    var k := FirstIndex(s, x);
    assert (s + t)[k] == x;
  }

  /** `unique()` lists the values in the order of their first occurrence. */
  lemma {:induction false} DistinctInFirstOccurrenceOrder(s: seq<string>)
    ensures forall i, j :: 0 <= i < j < |Distinct(s)| ==>
      FirstIndex(s, Distinct(s)[i]) < FirstIndex(s, Distinct(s)[j])
  {
    if s != [] {
      var init, last := s[..|s| - 1], s[|s| - 1];
      assert s == init + [last];
      DistinctInFirstOccurrenceOrder(init);
      var u, u' := Distinct(init), Distinct(s);
      forall i | 0 <= i < |u| ensures FirstIndex(s, u[i]) == FirstIndex(init, u[i]) {
        FirstIndexOfPrefix(init, [last], u[i]);
      }
      if last !in u {
        assert last !in init;
        assert FirstIndex(s, last) == |init|;
        assert u' == u + [last];
      }
    }
  }

  /**
   * `get_unique_products`: every product of the table exactly once, no other
   * identifier, in the order of first appearance.
   */
  function UniqueProducts(rows: seq<Record>): (ids: seq<string>)
    ensures forall i, j :: 0 <= i < j < |ids| ==> ids[i] != ids[j]
    ensures forall id :: id in ids <==> id in ProductIds(rows)
    ensures forall id :: id in ids <==> exists r :: r in rows && r.productId == id
    ensures forall i, j :: 0 <= i < j < |ids| ==>
      FirstIndex(ProductIds(rows), ids[i]) < FirstIndex(ProductIds(rows), ids[j])
  {
    var column := ProductIds(rows);
    DistinctInFirstOccurrenceOrder(column);
    assert forall id :: id in column <==> exists r :: r in rows && r.productId == id by {
      forall id | id in column ensures exists r :: r in rows && r.productId == id {
        var i :| 0 <= i < |column| && column[i] == id;
        assert rows[i] in rows;
      }
    }
    Distinct(column)
  }

  predicate SortedByDate(s: seq<Record>) {
    forall i, j :: 0 <= i < j < |s| ==> NotAfter(s[i].date, s[j].date)
  }

  function InsertByDate(x: Record, s: seq<Record>): (r: seq<Record>)
    requires SortedByDate(s)
    ensures SortedByDate(r)
    ensures multiset(r) == multiset(s) + multiset{x}
    ensures |r| > 0 && (r[0] == x || (s != [] && r[0] == s[0]))
  {
    if s == [] then [x]
    else if NotAfter(x.date, s[0].date) then
      SortedCons(x, s);
      [x] + s
    else
      assert s == [s[0]] + s[1..];
      var rest := InsertByDate(x, s[1..]);
      SortedCons(s[0], rest);
      [s[0]] + rest
  }

  /** A row not later than the head of a sorted sequence can go in front of it. */
  lemma SortedCons(x: Record, s: seq<Record>)
    requires SortedByDate(s) && (s != [] ==> NotAfter(x.date, s[0].date))
    ensures SortedByDate([x] + s)
  {
  }

  /**
   * `sort_values('Date')`: the same rows with non-decreasing dates. pandas'
   * default sort is not stable, so the order among rows with equal dates is
   * not part of the contract.
   */
  function SortByDate(s: seq<Record>): (r: seq<Record>)
    ensures SortedByDate(r)
    ensures multiset(r) == multiset(s)
  {
    if s == [] then []
    else
      assert s == [s[0]] + s[1..];
      InsertByDate(s[0], SortByDate(s[1..]))
  }

  /**
   * The series the forecast is built from (`create_forecasting_interface`):
   * the rows of `productId` and no other rows, each as often as in the
   * table, sorted by date.
   */
  function ProductSeries(rows: seq<Record>, productId: string): (series: seq<Record>)
    ensures SortedByDate(series)
    ensures forall x :: multiset(series)[x] == if x.productId == productId then multiset(rows)[x] else 0
  {
    SortByDate(Where(rows, Matching(ProductId, productId)))
  }

  /** A product taken from the product list has at least one row to forecast from. */
  lemma ListedProductHasSeries(rows: seq<Record>, productId: string)
    requires productId in UniqueProducts(rows)
    ensures |ProductSeries(rows, productId)| > 0
  {
  }
}
