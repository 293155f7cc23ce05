/**
 * The category metrics engine: order items are left-joined to the enriched
 * products on product_id, grouped by normalised category (rows with a null
 * category are dropped by the group-by), aggregated, given a revenue share
 * and a revenue rank, and sorted by revenue; the average-ticket and
 * popularity views are derived from that table. Prices are exact reals, and
 * the unguarded denominators of the source are preconditions.
 */
module Analyzer {
  import opened Wrappers
  import opened TableOps
  import DataLoader

  type EnrichedProduct = DataLoader.EnrichedProduct

  /** A row of the order-items table: order_item_id, product_id, price. */
  datatype Item = Item(orderItemId: int, productId: string, price: real)

  /** A row of the items merged with products[['product_id', 'normalized_category']]. */
  datatype SalesRow = SalesRow(item: Item, category: Option<string>)

  // ---------------------------------------------------------------------
  // The left join on product_id
  // ---------------------------------------------------------------------

  /** The normalized_category of every product row with the given id, in product order. */
  function CategoriesOfProduct(products: seq<EnrichedProduct>, productId: string): seq<string>
  {
    if products == [] then []
    else
      (if products[0].productId == productId then [products[0].normalized] else [])
      + CategoriesOfProduct(products[1..], productId)
  }

  /** The rows one item contributes: one per matching product row, or one with a null category. */
  function MergeItem(it: Item, products: seq<EnrichedProduct>): seq<SalesRow>
  {
    var cs := CategoriesOfProduct(products, it.productId);
    if cs == [] then [SalesRow(it, None)]
    else seq(|cs|, i requires 0 <= i < |cs| => SalesRow(it, Some(cs[i])))
  }

  /** items.merge(products[['product_id', 'normalized_category']], on='product_id', how='left') */
  function JoinSales(items: seq<Item>, products: seq<EnrichedProduct>): seq<SalesRow>
  {
    if items == [] then []
    else JoinSales(items[..|items| - 1], products) + MergeItem(items[|items| - 1], products)
  }

  /** Some joined row has category k. */
  ghost predicate Observed(s: seq<SalesRow>, k: string)
  {
    exists i :: 0 <= i < |s| && s[i].category == Some(k)
  }

  lemma {:induction false} ObservedAppend(a: seq<SalesRow>, b: seq<SalesRow>, k: string)
    ensures Observed(a + b, k) <==> Observed(a, k) || Observed(b, k)
  {
    if Observed(a + b, k) {
      var i :| 0 <= i < |a + b| && (a + b)[i].category == Some(k);
      if i >= |a| {
        assert b[i - |a|].category == Some(k);
      }
    }
    if Observed(a, k) {
      var i :| 0 <= i < |a| && a[i].category == Some(k);
      assert (a + b)[i] == a[i];
    }
    if Observed(b, k) {
      var i :| 0 <= i < |b| && b[i].category == Some(k);
      assert (a + b)[|a| + i] == b[i];
    }
  }

  /** Some product row has the given id and normalised category k. */
  ghost predicate ProductHas(products: seq<EnrichedProduct>, productId: string, k: string)
  {
    exists p :: 0 <= p < |products| && products[p].productId == productId && products[p].normalized == k
  }

  /** Some item's product_id is found in the products table with normalised category k. */
  ghost predicate SoldIn(items: seq<Item>, products: seq<EnrichedProduct>, k: string)
  {
    exists a :: 0 <= a < |items| && ProductHas(products, items[a].productId, k)
  }

  lemma {:induction false} CategoriesOfProductSpec(products: seq<EnrichedProduct>, productId: string, k: string)
    ensures k in CategoriesOfProduct(products, productId) <==> ProductHas(products, productId, k)
  {
    if products != [] {
      CategoriesOfProductSpec(products[1..], productId, k);
      if ProductHas(products, productId, k) {
        var p :| 0 <= p < |products| && products[p].productId == productId && products[p].normalized == k;
        if p > 0 {
          assert products[1..][p - 1] == products[p];
        }
      }
      if k in CategoriesOfProduct(products[1..], productId) {
        var p :| 0 <= p < |products| - 1 && products[1..][p].productId == productId && products[1..][p].normalized == k;
        assert products[p + 1] == products[1..][p];
      }
    }
  }

  lemma {:induction false} MergeItemObserved(it: Item, products: seq<EnrichedProduct>, k: string)
    ensures Observed(MergeItem(it, products), k) <==> ProductHas(products, it.productId, k)
  {
    CategoriesOfProductSpec(products, it.productId, k);
    var cs := CategoriesOfProduct(products, it.productId);
    if k in cs {
      var i :| 0 <= i < |cs| && cs[i] == k;
      assert MergeItem(it, products)[i].category == Some(k);
    }
  }

  lemma {:induction false} SoldInAppend(items: seq<Item>, it: Item, products: seq<EnrichedProduct>, k: string)
    ensures SoldIn(items + [it], products, k) <==> SoldIn(items, products, k) || ProductHas(products, it.productId, k)
  {
    var all := items + [it];
    if SoldIn(items, products, k) {
      var a :| 0 <= a < |items| && ProductHas(products, items[a].productId, k);
      assert all[a] == items[a];
    }
    if ProductHas(products, it.productId, k) {
      assert all[|items|] == it;
    }
    if SoldIn(all, products, k) {
      var a :| 0 <= a < |all| && ProductHas(products, all[a].productId, k);
      if a < |items| {
        assert all[a] == items[a];
      }
    }
  }

  /**
   * A category is observed in the join exactly when some item's product_id
   * is found in the products table with that normalised category.
   */
  lemma {:induction false} JoinSalesObserved(items: seq<Item>, products: seq<EnrichedProduct>, k: string)
    ensures Observed(JoinSales(items, products), k) <==> SoldIn(items, products, k)
  {
    if items != [] {
      var init, it := items[..|items| - 1], items[|items| - 1];
      assert items == init + [it];
      JoinSalesObserved(init, products, k);
      ObservedAppend(JoinSales(init, products), MergeItem(it, products), k);
      MergeItemObserved(it, products, k);
      SoldInAppend(init, it, products, k);
    }
  }

  /** An item whose product_id is in no product row joins with a null category. */
  lemma {:induction false} UnmatchedItemJoinsNull(items: seq<Item>, it: Item, products: seq<EnrichedProduct>)
    requires forall p :: 0 <= p < |products| ==> products[p].productId != it.productId
    ensures JoinSales(items + [it], products) == JoinSales(items, products) + [SalesRow(it, None)]
  {
    CategoriesOfNoProduct(products, it.productId);
    assert (items + [it])[..|items|] == items;
  }

  lemma {:induction false} CategoriesOfNoProduct(products: seq<EnrichedProduct>, productId: string)
    requires forall p :: 0 <= p < |products| ==> products[p].productId != productId
    ensures CategoriesOfProduct(products, productId) == []
  {
    if products != [] {
      CategoriesOfNoProduct(products[1..], productId);
    }
  }

  // ---------------------------------------------------------------------
  // groupby('normalized_category')
  // ---------------------------------------------------------------------

  /** The distinct non-null categories of the joined rows, in order of first appearance. */
  function Categories(s: seq<SalesRow>): (ks: seq<string>)
    ensures NoDuplicates(ks)
    ensures forall k :: k in ks <==> Observed(s, k)
  {
    if s == [] then []
    else
      var init, x := s[..|s| - 1], s[|s| - 1];
      var ks := Categories(init);
      assert s == init + [x];
      assert forall k :: Observed(s, k) <==> Observed(init, k) || x.category == Some(k) by {
        forall k { ObservedAppend(init, [x], k); }
      }
      if x.category.Some? && x.category.value !in ks then ks + [x.category.value] else ks
  }

  /** The items of the joined rows whose category is k. */
  function Group(s: seq<SalesRow>, k: string): seq<Item>
  {
    if s == [] then []
    else Group(s[..|s| - 1], k) + (if s[|s| - 1].category == Some(k) then [s[|s| - 1].item] else [])
  }

  /** The items of the joined rows that have a category: all the group-by keeps. */
  function Categorized(s: seq<SalesRow>): seq<Item>
  {
    if s == [] then []
    else Categorized(s[..|s| - 1]) + (if s[|s| - 1].category.Some? then [s[|s| - 1].item] else [])
  }

  lemma {:induction false} GroupNonEmpty(s: seq<SalesRow>, k: string)
    ensures |Group(s, k)| >= 1 <==> Observed(s, k)
  {
    if s != [] {
      var init, x := s[..|s| - 1], s[|s| - 1];
      assert s == init + [x];
      ObservedAppend(init, [x], k);
      GroupNonEmpty(init, k);
    }
  }

  function Price(it: Item): real
  {
    it.price
  }

  /** The distinct product ids of a group. */
  function ProductIds(g: seq<Item>): set<string>
  {
    if g == [] then {} else ProductIds(g[..|g| - 1]) + {g[|g| - 1].productId}
  }

  /** A non-empty group has at least one and at most as many distinct products as items. */
  lemma {:induction false} ProductIdsBounded(g: seq<Item>)
    requires g != []
    ensures 1 <= |ProductIds(g)| <= |g|
  {
    if |g| > 1 {
      ProductIdsBounded(g[..|g| - 1]);
    }
  }

  /** The base metrics of one group. */
  datatype GroupMetrics =
    GroupMetrics(category: string, totalSales: nat, totalRevenue: real, avgTicket: real, productDiversity: nat)

  /** count of order_item_id, sum and mean of price, nunique of product_id. */
  function AggregateGroup(k: string, g: seq<Item>): GroupMetrics
    requires g != []
  {
    GroupMetrics(k, |g|, SumOf(g, Price), SumOf(g, Price) / |g| as real, |ProductIds(g)|)
  }

  function AggregateAll(s: seq<SalesRow>, ks: seq<string>): (r: seq<GroupMetrics>)
    requires forall i :: 0 <= i < |ks| ==> Observed(s, ks[i])
    ensures |r| == |ks|
  {
    if ks == [] then []
    else
      GroupNonEmpty(s, ks[0]);
      [AggregateGroup(ks[0], Group(s, ks[0]))] + AggregateAll(s, ks[1..])
  }

  /** groupby('normalized_category').agg(...): one row per observed category, in first-appearance order. */
  function GroupBy(s: seq<SalesRow>): seq<GroupMetrics>
  {
    AggregateAll(s, Categories(s))
  }

  /** The i-th aggregate row is the aggregate of the i-th category's group. */
  lemma {:induction false} AggregateAllAt(s: seq<SalesRow>, ks: seq<string>, i: nat)
    requires forall j :: 0 <= j < |ks| ==> Observed(s, ks[j])
    requires i < |ks|
    ensures Group(s, ks[i]) != []
    ensures AggregateAll(s, ks)[i] == AggregateGroup(ks[i], Group(s, ks[i]))
  {
    GroupNonEmpty(s, ks[i]);
    if i > 0 {
      AggregateAllAt(s, ks[1..], i - 1);
    }
  }

  // ---------------------------------------------------------------------
  // Accounting: every joined row with a category lands in exactly one group
  // ---------------------------------------------------------------------

  function One(it: Item): real
  {
    1.0
  }

  lemma {:induction false} SumOfOne(g: seq<Item>)
    ensures SumOf(g, One) == |g| as real
  {
    if g != [] {
      SumOfOne(g[1..]);
    }
  }

  /** The column w summed over the groups of the keys ks. */
  function GroupedSum(s: seq<SalesRow>, ks: seq<string>, w: Item -> real): real
  {
    if ks == [] then 0.0 else SumOf(Group(s, ks[0]), w) + GroupedSum(s, ks[1..], w)
  }

  lemma {:induction false} GroupedSumAppendKey(s: seq<SalesRow>, ks: seq<string>, k: string, w: Item -> real)
    ensures GroupedSum(s, ks + [k], w) == GroupedSum(s, ks, w) + SumOf(Group(s, k), w)
  {
    if ks != [] {
      assert (ks + [k])[1..] == ks[1..] + [k];
      GroupedSumAppendKey(s, ks[1..], k, w);
    }
  }

  /** One more joined row adds its weight to the one group (if any) it belongs to. */
  lemma {:induction false} GroupedSumAppendRow(s: seq<SalesRow>, x: SalesRow, ks: seq<string>, w: Item -> real)
    requires NoDuplicates(ks)
    ensures GroupedSum(s + [x], ks, w)
              == GroupedSum(s, ks, w) + (if x.category.Some? && x.category.value in ks then w(x.item) else 0.0)
  {
    if ks != [] {
      var k := ks[0];
      assert (s + [x])[..|s|] == s;
      var extra := if x.category == Some(k) then [x.item] else [];
      assert Group(s + [x], k) == Group(s, k) + extra;
      SumOfAppend(Group(s, k), extra, w);
      assert NoDuplicates(ks[1..]);
      GroupedSumAppendRow(s, x, ks[1..], w);
      if x.category == Some(k) {
        assert k !in ks[1..];
      }
    }
  }

  /** Summed group by group, a column adds up to its sum over the joined rows that have a category. */
  lemma {:induction false} GroupsPartitionCategorized(s: seq<SalesRow>, w: Item -> real)
    ensures GroupedSum(s, Categories(s), w) == SumOf(Categorized(s), w)
  {
    if s != [] {
      var init, x := s[..|s| - 1], s[|s| - 1];
      assert s == init + [x];
      GroupsPartitionCategorized(init, w);
      var ks := Categories(init);
      GroupedSumAppendRow(init, x, ks, w);
      var extra := if x.category.Some? then [x.item] else [];
      SumOfAppend(Categorized(init), extra, w);
      if x.category.Some? && x.category.value !in ks {
        var k := x.category.value;
        GroupedSumAppendKey(s, ks, k, w);
        GroupedSumAppendRow(init, x, ks, w);
        GroupNonEmpty(init, k);
        assert Group(s, k) == [x.item];
      }
    }
  }

  function GroupRevenue(g: GroupMetrics): real
  {
    g.totalRevenue
  }

  function GroupSales(g: GroupMetrics): real
  {
    g.totalSales as real
  }

  lemma {:induction false} AggregateAllSums(s: seq<SalesRow>, ks: seq<string>)
    requires forall i :: 0 <= i < |ks| ==> Observed(s, ks[i])
    ensures SumOf(AggregateAll(s, ks), GroupRevenue) == GroupedSum(s, ks, Price)
    ensures SumOf(AggregateAll(s, ks), GroupSales) == GroupedSum(s, ks, One)
  {
    if ks != [] {
      AggregateAllSums(s, ks[1..]);
      SumOfOne(Group(s, ks[0]));
      assert AggregateAll(s, ks)[1..] == AggregateAll(s, ks[1..]);
    }
  }

  // ---------------------------------------------------------------------
  // calculate_category_metrics
  // ---------------------------------------------------------------------

  /** A row of the category metrics table. */
  datatype CategoryMetrics = CategoryMetrics(
    category: string,
    totalSales: nat,
    totalRevenue: real,
    avgTicket: real,
    productDiversity: nat,
    revenueShare: real,
    revenueRank: real)

  function Revenue(m: CategoryMetrics): real
  {
    m.totalRevenue
  }

  function Share(m: CategoryMetrics): real
  {
    m.revenueShare
  }

  function Sales(m: CategoryMetrics): real
  {
    m.totalSales as real
  }

  function CategoryOf(m: CategoryMetrics): string
  {
    m.category
  }

  /** metrics['total_revenue'].sum() */
  function TotalRevenue(groups: seq<GroupMetrics>): real
  {
    SumOf(groups, GroupRevenue)
  }

  /** The overall revenue of the grouped rows: the denominator of revenue_share. */
  function OverallRevenue(items: seq<Item>, products: seq<EnrichedProduct>): real
  {
    TotalRevenue(GroupBy(JoinSales(items, products)))
  }

  /** Adds revenue_share (percent of the overall revenue) and revenue_rank (descending average rank). */
  function AddShareAndRank(groups: seq<GroupMetrics>): (r: seq<CategoryMetrics>)
    requires TotalRevenue(groups) != 0.0
    ensures |r| == |groups|
  {
    var total := TotalRevenue(groups);
    seq(|groups|, i requires 0 <= i < |groups| =>
      CategoryMetrics(groups[i].category, groups[i].totalSales, groups[i].totalRevenue, groups[i].avgTicket,
                      groups[i].productDiversity, groups[i].totalRevenue / total * 100.0,
                      RankDesc(groups, GroupRevenue, groups[i].totalRevenue)))
  }

  /** The metrics table before it is sorted. */
  function MetricsTable(items: seq<Item>, products: seq<EnrichedProduct>): seq<CategoryMetrics>
    requires OverallRevenue(items, products) != 0.0
  {
    AddShareAndRank(GroupBy(JoinSales(items, products)))
  }

  /**
   * calculate_category_metrics: the grouped rows with share and rank, sorted
   * by total revenue, largest first (order among equal revenues unspecified).
   */
  function CalculateCategoryMetrics(items: seq<Item>, products: seq<EnrichedProduct>): (r: seq<CategoryMetrics>)
    requires OverallRevenue(items, products) != 0.0
    ensures multiset(r) == multiset(MetricsTable(items, products))
    ensures SortedDesc(r, Revenue)
  {
    SortDesc(MetricsTable(items, products), Revenue)
  }

  /** What the i-th unsorted metrics row holds. */
  lemma {:induction false} MetricsTableAt(items: seq<Item>, products: seq<EnrichedProduct>, i: nat)
    requires OverallRevenue(items, products) != 0.0
    requires i < |MetricsTable(items, products)|
    ensures var s := JoinSales(items, products);
            var m := MetricsTable(items, products)[i];
            var g := Group(s, m.category);
            && m.category == Categories(s)[i]
            && g != []
            && m.totalSales == |g|
            && m.totalRevenue == SumOf(g, Price)
            && m.avgTicket == m.totalRevenue / m.totalSales as real
            && m.productDiversity == |ProductIds(g)|
            && m.revenueShare == m.totalRevenue / OverallRevenue(items, products) * 100.0
            && m.revenueRank == RankDesc(GroupBy(s), GroupRevenue, m.totalRevenue)
  {
    var s := JoinSales(items, products);
    AggregateAllAt(s, Categories(s), i);
  }

  /** Every sorted row is one of the unsorted rows. */
  lemma {:induction false} MetricsRowOrigin(items: seq<Item>, products: seq<EnrichedProduct>, i: nat) returns (j: nat)
    requires OverallRevenue(items, products) != 0.0
    requires i < |CalculateCategoryMetrics(items, products)|
    ensures j < |MetricsTable(items, products)|
    ensures MetricsTable(items, products)[j] == CalculateCategoryMetrics(items, products)[i]
  {
    var r, w := CalculateCategoryMetrics(items, products), MetricsTable(items, products);
    assert r[i] in multiset(w);
    j :| 0 <= j < |w| && w[j] == r[i];
  }

  /** mean is the mean of n values that add up to total. */
  ghost predicate MeanOf(mean: real, total: real, n: nat)
  {
    mean * (n as real) == total
  }

  lemma {:induction false} MeanTimesCount(mean: real, total: real, n: nat)
    requires n != 0 && mean == total / (n as real)
    ensures MeanOf(mean, total, n)
  {
  }

  /**
   * m aggregates the group of joined rows with its category: total_sales
   * counts the items, total_revenue sums their prices, avg_ticket is their
   * mean price, and product_diversity counts their distinct products, at
   * least one and at most total_sales.
   */
  ghost predicate AggregatesGroup(m: CategoryMetrics, s: seq<SalesRow>)
  {
    var g := Group(s, m.category);
    && m.totalSales == |g|
    && m.totalRevenue == SumOf(g, Price)
    && MeanOf(m.avgTicket, m.totalRevenue, m.totalSales)
    && m.productDiversity == |ProductIds(g)|
    && 1 <= m.productDiversity <= m.totalSales
  }

  /** Every row of the metrics table aggregates its category's group. */
  lemma {:induction false} MetricsRowAggregates(items: seq<Item>, products: seq<EnrichedProduct>, i: nat)
    requires OverallRevenue(items, products) != 0.0
    requires i < |CalculateCategoryMetrics(items, products)|
    ensures AggregatesGroup(CalculateCategoryMetrics(items, products)[i], JoinSales(items, products))
  {
    var j := MetricsRowOrigin(items, products, i);
    TableRowAggregates(items, products, j);
  }

  lemma {:induction false} TableRowAggregates(items: seq<Item>, products: seq<EnrichedProduct>, j: nat)
    requires OverallRevenue(items, products) != 0.0
    requires j < |MetricsTable(items, products)|
    ensures AggregatesGroup(MetricsTable(items, products)[j], JoinSales(items, products))
  {
    var s := JoinSales(items, products);
    var ks := Categories(s);
    AggregateAllAt(s, ks, j);
    var g := Group(s, ks[j]);
    var m := MetricsTable(items, products)[j];
    assert m.category == ks[j] && m.totalSales == |g| && m.totalRevenue == SumOf(g, Price);
    assert m.avgTicket == m.totalRevenue / (m.totalSales as real);
    assert m.productDiversity == |ProductIds(g)|;
    ProductIdsBounded(g);
    MeanTimesCount(m.avgTicket, m.totalRevenue, m.totalSales);
  }

  lemma {:induction false} ShareScaling(share: real, x: real, total: real)
    requires total != 0.0 && share == x / total * 100.0
    ensures share == x * (100.0 / total)
  {
  }

  lemma {:induction false} ScaledTotal(sum: real, total: real)
    requires total != 0.0 && sum == total
    ensures sum * (100.0 / total) == 100.0
  {
  }

  /**
   * One row per observed category: no category appears twice, and a category
   * has a row exactly when some item's product_id is found in the products
   * table with that category. Items whose product is missing join with a
   * null category and produce no row.
   */
  lemma {:induction false} MetricsOneRowPerCategory(items: seq<Item>, products: seq<EnrichedProduct>)
    requires OverallRevenue(items, products) != 0.0
    ensures var r := CalculateCategoryMetrics(items, products);
            forall i, j :: 0 <= i < j < |r| ==> r[i].category != r[j].category
    ensures var r := CalculateCategoryMetrics(items, products);
            forall k :: (exists i :: 0 <= i < |r| && r[i].category == k) <==> SoldIn(items, products, k)
  {
    var s := JoinSales(items, products);
    var r, w := CalculateCategoryMetrics(items, products), MetricsTable(items, products);
    var ks := Categories(s);
    forall i | 0 <= i < |w| ensures w[i].category == ks[i] {
      MetricsTableAt(items, products, i);
    }
    PermutationKeepsDistinctKeys(w, r, CategoryOf);
    forall k ensures (exists i :: 0 <= i < |r| && r[i].category == k) <==> SoldIn(items, products, k) {
      JoinSalesObserved(items, products, k);
      if i :| 0 <= i < |r| && r[i].category == k {
        var j := MetricsRowOrigin(items, products, i);
        assert ks[j] == k;
      }
      if SoldIn(items, products, k) {
        var j :| 0 <= j < |ks| && ks[j] == k;
        assert w[j] in multiset(r);
      }
    }
  }

  /**
   * Nothing is lost but the items whose product is missing: the rows' sales
   * add up to the number of joined rows that have a category, and their
   * revenues to the sum of those rows' prices.
   */
  lemma {:induction false} MetricsAccountForJoinedItems(items: seq<Item>, products: seq<EnrichedProduct>)
    requires OverallRevenue(items, products) != 0.0
    ensures var r := CalculateCategoryMetrics(items, products);
            var kept := Categorized(JoinSales(items, products));
            SumOf(r, Sales) == |kept| as real && SumOf(r, Revenue) == SumOf(kept, Price)
  {
    var s := JoinSales(items, products);
    var r, w, groups := CalculateCategoryMetrics(items, products), MetricsTable(items, products), GroupBy(s);
    SumOfPermutation(r, w, Sales);
    SumOfPermutation(r, w, Revenue);
    SumOfPointwise(w, Sales, groups, GroupSales);
    SumOfPointwise(w, Revenue, groups, GroupRevenue);
    AggregateAllSums(s, Categories(s));
    GroupsPartitionCategorized(s, Price);
    GroupsPartitionCategorized(s, One);
    SumOfOne(Categorized(s));
  }

  /** The shares added to a grouped table add up to 100. */
  lemma {:induction false} SharesSumTo100(groups: seq<GroupMetrics>)
    requires TotalRevenue(groups) != 0.0
    ensures SumOf(AddShareAndRank(groups), Share) == 100.0
  {
    var w, total := AddShareAndRank(groups), TotalRevenue(groups);
    forall i | 0 <= i < |w| ensures Share(w[i]) == Revenue(w[i]) * (100.0 / total) {
      ShareScaling(w[i].revenueShare, w[i].totalRevenue, total);
    }
    SumOfScaled(w, Revenue, Share, 100.0 / total);
    SumOfPointwise(w, Revenue, groups, GroupRevenue);
    ScaledTotal(SumOf(w, Revenue), total);
  }

  /** The revenue shares add up to 100. */
  lemma {:induction false} RevenueSharesSumTo100(items: seq<Item>, products: seq<EnrichedProduct>)
    requires OverallRevenue(items, products) != 0.0
    ensures SumOf(CalculateCategoryMetrics(items, products), Share) == 100.0
  {
    SumOfPermutation(CalculateCategoryMetrics(items, products), MetricsTable(items, products), Share);
    SharesSumTo100(GroupBy(JoinSales(items, products)));
  }

  function RevenueRank(m: CategoryMetrics): real
  {
    m.revenueRank
  }

  /** The ranks added to a grouped table are the average ranks of the revenues. */
  lemma {:induction false} AddedRanksAreRanks(groups: seq<GroupMetrics>)
    requires TotalRevenue(groups) != 0.0
    ensures RankColumn(AddShareAndRank(groups), Revenue, RevenueRank)
  {
    var w := AddShareAndRank(groups);
    forall i | 0 <= i < |w| ensures RevenueRank(w[i]) == RankDesc(w, Revenue, Revenue(w[i])) {
      RankDescPointwise(groups, GroupRevenue, w, Revenue, w[i].totalRevenue);
    }
  }

  /** revenue_rank is the descending average rank of the row's revenue among all rows. */
  lemma {:induction false} RevenueRankIsAverageRank(items: seq<Item>, products: seq<EnrichedProduct>)
    requires OverallRevenue(items, products) != 0.0
    ensures RankColumn(CalculateCategoryMetrics(items, products), Revenue, RevenueRank)
  {
    AddedRanksAreRanks(GroupBy(JoinSales(items, products)));
    RankColumnPermutation(MetricsTable(items, products), CalculateCategoryMetrics(items, products), Revenue, RevenueRank);
  }

  /**
   * The ranks of the sorted table: each lies between 1 and the number of
   * rows, equal revenues share a rank, a larger revenue has a smaller rank,
   * ranks never decrease down the table, and a strict maximum ranks 1.
   */
  lemma {:induction false} RevenueRankProperties(items: seq<Item>, products: seq<EnrichedProduct>)
    requires OverallRevenue(items, products) != 0.0
    ensures var r := CalculateCategoryMetrics(items, products);
            forall i :: 0 <= i < |r| ==> 1.0 <= r[i].revenueRank <= |r| as real
    ensures var r := CalculateCategoryMetrics(items, products);
            forall i, j :: 0 <= i < |r| && 0 <= j < |r| && r[i].totalRevenue == r[j].totalRevenue ==>
              r[i].revenueRank == r[j].revenueRank
    ensures var r := CalculateCategoryMetrics(items, products);
            forall i, j :: 0 <= i < |r| && 0 <= j < |r| && r[i].totalRevenue > r[j].totalRevenue ==>
              r[i].revenueRank < r[j].revenueRank
    ensures var r := CalculateCategoryMetrics(items, products);
            forall i, j :: 0 <= i < j < |r| ==> r[i].revenueRank <= r[j].revenueRank
    ensures var r := CalculateCategoryMetrics(items, products);
            |r| > 0 && (forall j :: 0 < j < |r| ==> r[j].totalRevenue < r[0].totalRevenue) ==> r[0].revenueRank == 1.0
  {
    var r := CalculateCategoryMetrics(items, products);
    RevenueRankIsAverageRank(items, products);
    RankColumnProperties(r, Revenue, RevenueRank);
  }

  /**
   * An item whose product_id is in no product row changes nothing, wherever
   * it sits among the items: it joins with a null category, which the
   * group-by drops.
   */
  lemma {:induction false} UnmatchedItemIgnored(items: seq<Item>, p: nat, it: Item, products: seq<EnrichedProduct>)
    requires p <= |items|
    requires forall q :: 0 <= q < |products| ==> products[q].productId != it.productId
    ensures GroupBy(JoinSales(items[..p] + [it] + items[p..], products)) == GroupBy(JoinSales(items, products))
    ensures OverallRevenue(items[..p] + [it] + items[p..], products) == OverallRevenue(items, products)
    ensures OverallRevenue(items, products) != 0.0 ==>
              CalculateCategoryMetrics(items[..p] + [it] + items[p..], products) == CalculateCategoryMetrics(items, products)
  {
    var front, back := items[..p], items[p..];
    assert items == front + back;
    var a, b := JoinSales(front, products), JoinSales(back, products);
    var x := SalesRow(it, None);
    UnmatchedItemJoinsNull(front, it, products);
    JoinSalesAppend(front + [it], back, products);
    JoinSalesAppend(front, back, products);
    assert a + [x] + b == (a + [x]) + b;
    NullRowInvisible(a, x, b);
    AggregateAllSameGroups(a + [x] + b, a + b, Categories(a + b));
  }

  /** Joining two runs of items joins each run in turn. */
  lemma {:induction false} JoinSalesAppend(front: seq<Item>, back: seq<Item>, products: seq<EnrichedProduct>)
    ensures JoinSales(front + back, products) == JoinSales(front, products) + JoinSales(back, products)
    decreases |back|
  {
    if back == [] {
      assert front + back == front;
    } else {
      var init, last := back[..|back| - 1], back[|back| - 1];
      var jf, ji, jl := JoinSales(front, products), JoinSales(init, products), MergeItem(last, products);
      assert JoinSales(front + back, products) == JoinSales(front + init, products) + jl by {
        assert front + back == (front + init) + [last];
        JoinSalesSnoc(front + init, last, products);
      }
      assert JoinSales(back, products) == ji + jl by {
        assert back == init + [last];
        JoinSalesSnoc(init, last, products);
      }
      JoinSalesAppend(front, init, products);
      ConcatAssociative(jf, ji, jl);
    }
  }

  lemma {:induction false} ConcatAssociative<T>(a: seq<T>, b: seq<T>, c: seq<T>)
    ensures (a + b) + c == a + (b + c)
  {
  }

  lemma {:induction false} JoinSalesSnoc(items: seq<Item>, it: Item, products: seq<EnrichedProduct>)
    ensures JoinSales(items + [it], products) == JoinSales(items, products) + MergeItem(it, products)
  {
    assert (items + [it])[..|items|] == items;
  }

  /** A joined row with a null category, wherever it sits, affects neither the keys nor any group. */
  lemma {:induction false} NullRowInvisible(a: seq<SalesRow>, x: SalesRow, b: seq<SalesRow>)
    requires x.category.None?
    ensures Categories(a + [x] + b) == Categories(a + b)
    ensures forall k :: Group(a + [x] + b, k) == Group(a + b, k)
  {
    if b == [] {
      assert a + [x] + b == a + [x] && a + b == a;
      assert (a + [x])[..|a|] == a;
    } else {
      var init, last := b[..|b| - 1], b[|b| - 1];
      assert (a + [x] + b)[..|a + [x] + b| - 1] == a + [x] + init;
      assert (a + b)[..|a + b| - 1] == a + init;
      NullRowInvisible(a, x, init);
    }
  }

  lemma {:induction false} AggregateAllSameGroups(s: seq<SalesRow>, t: seq<SalesRow>, ks: seq<string>)
    requires forall k :: Group(s, k) == Group(t, k)
    requires forall i :: 0 <= i < |ks| ==> Observed(s, ks[i]) && Observed(t, ks[i])
    ensures AggregateAll(s, ks) == AggregateAll(t, ks)
  {
    if ks != [] {
      AggregateAllSameGroups(s, t, ks[1..]);
    }
  }

  // ---------------------------------------------------------------------
  // Non-negative prices
  // ---------------------------------------------------------------------

  ghost predicate NonNegativePrices(items: seq<Item>)
  {
    forall a :: 0 <= a < |items| ==> items[a].price >= 0.0
  }

  ghost predicate RowsPriced(s: seq<SalesRow>)
  {
    forall i :: 0 <= i < |s| ==> s[i].item.price >= 0.0
  }

  lemma {:induction false} JoinSalesPriced(items: seq<Item>, products: seq<EnrichedProduct>)
    requires NonNegativePrices(items)
    ensures RowsPriced(JoinSales(items, products))
  {
    if items != [] {
      var init := items[..|items| - 1];
      JoinSalesPriced(init, products);
      var a, b := JoinSales(init, products), MergeItem(items[|items| - 1], products);
      assert forall i :: |a| <= i < |a + b| ==> (a + b)[i] == b[i - |a|];
    }
  }

  lemma {:induction false} GroupPriced(s: seq<SalesRow>, k: string)
    requires RowsPriced(s)
    ensures forall j :: 0 <= j < |Group(s, k)| ==> Group(s, k)[j].price >= 0.0
  {
    if s != [] {
      GroupPriced(s[..|s| - 1], k);
    }
  }

  /** With non-negative prices every category's revenue is non-negative. */
  lemma {:induction false} GroupRevenueNonNegative(items: seq<Item>, products: seq<EnrichedProduct>, k: string)
    requires NonNegativePrices(items)
    ensures SumOf(Group(JoinSales(items, products), k), Price) >= 0.0
  {
    JoinSalesPriced(items, products);
    GroupPriced(JoinSales(items, products), k);
    SumOfNonNegative(Group(JoinSales(items, products), k), Price, 0);
  }

  /** The overall revenue is the sum of the metrics table's revenue column. */
  lemma {:induction false} OverallRevenueIsColumnSum(items: seq<Item>, products: seq<EnrichedProduct>)
    requires OverallRevenue(items, products) != 0.0
    ensures SumOf(CalculateCategoryMetrics(items, products), Revenue) == OverallRevenue(items, products)
  {
    var w := MetricsTable(items, products);
    SumOfPermutation(CalculateCategoryMetrics(items, products), w, Revenue);
    SumOfPointwise(w, Revenue, GroupBy(JoinSales(items, products)), GroupRevenue);
  }

  /** Every row's revenue_share is its total_revenue as a percentage of the table's revenue column. */
  lemma {:induction false} RevenueShareOfRow(items: seq<Item>, products: seq<EnrichedProduct>, i: nat)
    requires OverallRevenue(items, products) != 0.0
    requires i < |CalculateCategoryMetrics(items, products)|
    ensures var r := CalculateCategoryMetrics(items, products);
            SumOf(r, Revenue) != 0.0 && r[i].revenueShare == r[i].totalRevenue / SumOf(r, Revenue) * 100.0
  {
    var j := MetricsRowOrigin(items, products, i);
    MetricsTableAt(items, products, j);
    OverallRevenueIsColumnSum(items, products);
  }

  lemma {:induction false} RatioBounds(x: real, total: real)
    requires 0.0 <= x <= total && total > 0.0
    ensures 0.0 <= x / total <= 1.0
  {
  }

  lemma {:induction false} ShareBounds(share: real, x: real, total: real)
    requires 0.0 <= x <= total && total > 0.0 && share == x / total * 100.0
    ensures 0.0 <= share <= 100.0
  {
    RatioBounds(x, total);
  }

  lemma {:induction false} MeanNonNegative(mean: real, total: real, n: real)
    requires n > 0.0 && total >= 0.0 && mean == total / n
    ensures mean >= 0.0
  {
  }

  lemma {:induction false} RowShareBounds(items: seq<Item>, products: seq<EnrichedProduct>, i: nat)
    requires OverallRevenue(items, products) != 0.0
    requires i < |CalculateCategoryMetrics(items, products)|
    requires 0.0 <= CalculateCategoryMetrics(items, products)[i].totalRevenue <= OverallRevenue(items, products)
    ensures 0.0 <= CalculateCategoryMetrics(items, products)[i].revenueShare <= 100.0
    ensures CalculateCategoryMetrics(items, products)[i].avgTicket >= 0.0
  {
    var j := MetricsRowOrigin(items, products, i);
    MetricsTableAt(items, products, j);
    var m := MetricsTable(items, products)[j];
    ShareBounds(m.revenueShare, m.totalRevenue, OverallRevenue(items, products));
    MeanNonNegative(m.avgTicket, m.totalRevenue, m.totalSales as real);
  }

  /**
   * With non-negative prices every revenue share lies between 0 and 100,
   * and every average ticket is non-negative.
   */
  lemma {:induction false} NonNegativePricesBoundShares(items: seq<Item>, products: seq<EnrichedProduct>)
    requires OverallRevenue(items, products) != 0.0
    requires NonNegativePrices(items)
    ensures var r := CalculateCategoryMetrics(items, products);
            forall i :: 0 <= i < |r| ==> 0.0 <= r[i].revenueShare <= 100.0 && r[i].avgTicket >= 0.0
  {
    var r := CalculateCategoryMetrics(items, products);
    forall i | 0 <= i < |r| ensures Revenue(r[i]) >= 0.0 {
      MetricsRowAggregates(items, products, i);
      GroupRevenueNonNegative(items, products, r[i].category);
    }
    OverallRevenueIsColumnSum(items, products);
    forall i | 0 <= i < |r| ensures 0.0 <= r[i].revenueShare <= 100.0 && r[i].avgTicket >= 0.0 {
      SumOfNonNegative(r, Revenue, i);
      RowShareBounds(items, products, i);
    }
  }

  // ---------------------------------------------------------------------
  // analyze_average_ticket
  // ---------------------------------------------------------------------

  /** A row of the average-ticket view. */
  datatype TicketRow = TicketRow(
    category: string,
    avgTicket: real,
    totalSales: nat,
    ticketRank: real,
    relativeToMean: real)

  function AvgTicket(m: CategoryMetrics): real
  {
    m.avgTicket
  }

  function RowTicket(t: TicketRow): real
  {
    t.avgTicket
  }

  function TicketRank(t: TicketRow): real
  {
    t.ticketRank
  }

  function Relative(t: TicketRow): real
  {
    t.relativeToMean
  }

  function TicketCategory(t: TicketRow): string
  {
    t.category
  }

  /** avg_ticket.mean() over the rows; an empty table has no mean and needs none (0 stands in). */
  function MeanAvgTicket(metrics: seq<CategoryMetrics>): real
  {
    if metrics == [] then 0.0 else SumOf(metrics, AvgTicket) / |metrics| as real
  }

  /**
   * The ticket columns of the metrics table, with ticket_rank (descending
   * average rank of avg_ticket) and relative_to_mean (avg_ticket over the
   * mean avg_ticket).
   */
  function TicketTable(metrics: seq<CategoryMetrics>): (t: seq<TicketRow>)
    requires metrics != [] ==> MeanAvgTicket(metrics) != 0.0
    ensures |t| == |metrics|
  {
    var mean := MeanAvgTicket(metrics);
    seq(|metrics|, i requires 0 <= i < |metrics| =>
      TicketRow(metrics[i].category, metrics[i].avgTicket, metrics[i].totalSales,
                RankDesc(metrics, AvgTicket, metrics[i].avgTicket), metrics[i].avgTicket / mean))
  }

  /** analyze_average_ticket: the ticket view sorted by avg_ticket, largest first. */
  function AnalyzeAverageTicket(items: seq<Item>, products: seq<EnrichedProduct>): (r: seq<TicketRow>)
    requires OverallRevenue(items, products) != 0.0
    requires MeanAvgTicket(CalculateCategoryMetrics(items, products)) != 0.0
    ensures multiset(r) == multiset(TicketTable(CalculateCategoryMetrics(items, products)))
    ensures SortedDesc(r, RowTicket)
  {
    SortDesc(TicketTable(CalculateCategoryMetrics(items, products)), RowTicket)
  }

  /**
   * t is the ticket row of m in a table whose mean average ticket is `mean`:
   * it carries m's category, average ticket and sales count, and its
   * relative_to_mean is m's average ticket over `mean`.
   */
  predicate TicketOfRow(t: TicketRow, m: CategoryMetrics, mean: real)
    requires mean != 0.0
  {
    && t.category == m.category
    && t.avgTicket == m.avgTicket
    && t.totalSales == m.totalSales
    && t.relativeToMean == m.avgTicket / mean
  }

  /**
   * r is a reordering of a table whose j-th row is the ticket row of the
   * j-th row of m: as many rows, and every metrics row has exactly its own
   * ticket row in r.
   */
  ghost predicate TicketRowsFor(r: seq<TicketRow>, m: seq<CategoryMetrics>)
    requires m != [] ==> MeanAvgTicket(m) != 0.0
  {
    exists t: seq<TicketRow> ::
      && |t| == |m|
      && multiset(r) == multiset(t)
      && forall j :: 0 <= j < |m| ==> TicketOfRow(t[j], m[j], MeanAvgTicket(m))
  }

  /**
   * The ticket view has one row per metrics row, carrying that row's
   * category, average ticket and sales count, and its average ticket
   * relative to the mean.
   */
  lemma {:induction false} TicketRowsMatchMetrics(items: seq<Item>, products: seq<EnrichedProduct>)
    requires OverallRevenue(items, products) != 0.0
    requires MeanAvgTicket(CalculateCategoryMetrics(items, products)) != 0.0
    ensures TicketRowsFor(AnalyzeAverageTicket(items, products), CalculateCategoryMetrics(items, products))
  {
    var m, r := CalculateCategoryMetrics(items, products), AnalyzeAverageTicket(items, products);
    var t := TicketTable(m);
    assert multiset(r) == multiset(t);
    TicketTableMatches(m);
    assert |t| == |m|;
  }

  /** No category appears twice in the ticket view. */
  lemma {:induction false} TicketCategoriesDistinct(items: seq<Item>, products: seq<EnrichedProduct>)
    requires OverallRevenue(items, products) != 0.0
    requires MeanAvgTicket(CalculateCategoryMetrics(items, products)) != 0.0
    ensures var r := AnalyzeAverageTicket(items, products);
            forall i, j :: 0 <= i < j < |r| ==> r[i].category != r[j].category
  {
    MetricsOneRowPerCategory(items, products);
    TicketViewDistinct(CalculateCategoryMetrics(items, products), AnalyzeAverageTicket(items, products));
  }

  lemma {:induction false} TicketViewDistinct(m: seq<CategoryMetrics>, r: seq<TicketRow>)
    requires m != [] ==> MeanAvgTicket(m) != 0.0
    requires multiset(r) == multiset(TicketTable(m))
    requires forall i, j :: 0 <= i < j < |m| ==> m[i].category != m[j].category
    ensures forall i, j :: 0 <= i < j < |r| ==> r[i].category != r[j].category
  {
    var t := TicketTable(m);
    TicketTableMatches(m);
    assert forall i, j :: 0 <= i < j < |t| ==> TicketCategory(t[i]) != TicketCategory(t[j]);
    PermutationKeepsDistinctKeys(t, r, TicketCategory);
  }

  lemma {:induction false} TicketTableMatches(metrics: seq<CategoryMetrics>)
    requires metrics != [] ==> MeanAvgTicket(metrics) != 0.0
    ensures forall j :: 0 <= j < |metrics| ==> TicketOfRow(TicketTable(metrics)[j], metrics[j], MeanAvgTicket(metrics))
  {
  }

  /** The ticket ranks are the descending average ranks of the average tickets. */
  lemma {:induction false} TicketTableRanks(metrics: seq<CategoryMetrics>)
    requires metrics != [] ==> MeanAvgTicket(metrics) != 0.0
    ensures RankColumn(TicketTable(metrics), RowTicket, TicketRank)
  {
    var t := TicketTable(metrics);
    forall i | 0 <= i < |t| ensures TicketRank(t[i]) == RankDesc(t, RowTicket, RowTicket(t[i])) {
      RankDescPointwise(metrics, AvgTicket, t, RowTicket, t[i].avgTicket);
    }
  }

  /**
   * ticket_rank: each lies between 1 and the number of rows, equal average
   * tickets share a rank, a larger average ticket has a smaller rank, and
   * ranks never decrease down the view.
   */
  lemma {:induction false} TicketRankProperties(items: seq<Item>, products: seq<EnrichedProduct>)
    requires OverallRevenue(items, products) != 0.0
    requires MeanAvgTicket(CalculateCategoryMetrics(items, products)) != 0.0
    ensures var r := AnalyzeAverageTicket(items, products);
            RankColumn(r, RowTicket, TicketRank)
    ensures var r := AnalyzeAverageTicket(items, products);
            forall i :: 0 <= i < |r| ==> 1.0 <= r[i].ticketRank <= |r| as real
    ensures var r := AnalyzeAverageTicket(items, products);
            forall i, j :: 0 <= i < |r| && 0 <= j < |r| && r[i].avgTicket == r[j].avgTicket ==>
              r[i].ticketRank == r[j].ticketRank
    ensures var r := AnalyzeAverageTicket(items, products);
            forall i, j :: 0 <= i < |r| && 0 <= j < |r| && r[i].avgTicket > r[j].avgTicket ==>
              r[i].ticketRank < r[j].ticketRank
    ensures var r := AnalyzeAverageTicket(items, products);
            forall i, j :: 0 <= i < j < |r| ==> r[i].ticketRank <= r[j].ticketRank
  {
    var r, m := AnalyzeAverageTicket(items, products), CalculateCategoryMetrics(items, products);
    TicketTableRanks(m);
    RankColumnPermutation(TicketTable(m), r, RowTicket, TicketRank);
    RankColumnProperties(r, RowTicket, TicketRank);
  }

  /** One row's relative_to_mean is its avg_ticket over the mean avg_ticket. */
  lemma {:induction false} TicketRowRelative(metrics: seq<CategoryMetrics>, i: nat)
    requires i < |metrics| && MeanAvgTicket(metrics) != 0.0
    ensures Relative(TicketTable(metrics)[i]) == AvgTicket(metrics[i]) / MeanAvgTicket(metrics)
  {
  }

  lemma {:induction false} CountOverMean(sum: real, n: real)
    requires n != 0.0 && sum / n != 0.0
    ensures sum / (sum / n) == n
  {
  }

  /** The relative-to-mean values of a ticket table add up to its number of rows. */
  lemma {:induction false} TicketTableRelativeSum(metrics: seq<CategoryMetrics>)
    requires metrics != [] ==> MeanAvgTicket(metrics) != 0.0
    ensures SumOf(TicketTable(metrics), Relative) == |metrics| as real
  {
    var t := TicketTable(metrics);
    if metrics != [] {
      var mean := MeanAvgTicket(metrics);
      forall i | 0 <= i < |t| ensures Relative(t[i]) == AvgTicket(metrics[i]) / mean {
        TicketRowRelative(metrics, i);
      }
      SumOfRatio(metrics, AvgTicket, t, Relative, mean);
      CountOverMean(SumOf(metrics, AvgTicket), |metrics| as real);
    }
  }

  /** relative_to_mean averages to 1: the values add up to the number of rows. */
  lemma {:induction false} RelativeToMeanSumsToCount(items: seq<Item>, products: seq<EnrichedProduct>)
    requires OverallRevenue(items, products) != 0.0
    requires MeanAvgTicket(CalculateCategoryMetrics(items, products)) != 0.0
    ensures SumOf(AnalyzeAverageTicket(items, products), Relative) == |AnalyzeAverageTicket(items, products)| as real
  {
    var r, m := AnalyzeAverageTicket(items, products), CalculateCategoryMetrics(items, products);
    var t := TicketTable(m);
    SumOfPermutation(r, t, Relative);
    TicketTableRelativeSum(m);
    assert |r| == |multiset(r)| == |multiset(t)| == |t|;
  }

  lemma {:induction false} PositiveMean(sum: real, n: real)
    requires sum > 0.0 && n > 0.0
    ensures sum / n > 0.0
  {
  }

  lemma {:induction false} PositiveRowMean(mean: real, total: real, n: real)
    requires total > 0.0 && n > 0.0 && mean == total / n
    ensures mean > 0.0
  {
  }

  /**
   * With non-negative prices (and some revenue) the mean average ticket is
   * positive, so relative_to_mean is always defined.
   */
  lemma {:induction false} NonNegativePricesGiveTicketMean(items: seq<Item>, products: seq<EnrichedProduct>)
    requires OverallRevenue(items, products) != 0.0
    requires NonNegativePrices(items)
    ensures MeanAvgTicket(CalculateCategoryMetrics(items, products)) > 0.0
  {
    var m := CalculateCategoryMetrics(items, products);
    forall i | 0 <= i < |m| ensures Revenue(m[i]) >= 0.0 {
      MetricsRowAggregates(items, products, i);
      GroupRevenueNonNegative(items, products, m[i].category);
    }
    OverallRevenueIsColumnSum(items, products);
    var k := SumOfPositive(m, Revenue);
    var j := MetricsRowOrigin(items, products, k);
    MetricsTableAt(items, products, j);
    PositiveRowMean(m[k].avgTicket, m[k].totalRevenue, m[k].totalSales as real);
    NonNegativePricesBoundShares(items, products);
    SumOfNonNegative(m, AvgTicket, k);
    PositiveMean(SumOf(m, AvgTicket), |m| as real);
  }

  // ---------------------------------------------------------------------
  // analyze_category_popularity
  // ---------------------------------------------------------------------

  /** A row of the popularity view. */
  datatype PopularityRow = PopularityRow(
    category: string,
    totalSales: nat,
    revenueShare: real,
    productDiversity: nat,
    salesShare: real,
    popularityScore: real)

  function Score(p: PopularityRow): real
  {
    p.popularityScore
  }

  function SalesShare(p: PopularityRow): real
  {
    p.salesShare
  }

  function PopularityCategory(p: PopularityRow): string
  {
    p.category
  }

  /** product_diversity.max(): the largest diversity of the rows (0 for no rows). */
  function MaxDiversity(metrics: seq<CategoryMetrics>): (d: nat)
    ensures forall i :: 0 <= i < |metrics| ==> metrics[i].productDiversity <= d
    ensures metrics != [] ==> exists i :: 0 <= i < |metrics| && metrics[i].productDiversity == d
  {
    if metrics == [] then 0
    else
      var rest := MaxDiversity(metrics[1..]);
      assert forall i :: 0 < i < |metrics| ==> metrics[i] == metrics[1..][i - 1];
      if metrics[0].productDiversity >= rest then metrics[0].productDiversity else rest
  }

  /** 0.4 * sales_share + 0.4 * revenue_share / 100 + 0.2 * product_diversity / max diversity */
  function PopularityScore(salesShare: real, revenueShare: real, diversity: nat, maxDiversity: nat): real
    requires maxDiversity != 0
  {
    0.4 * salesShare + 0.4 * revenueShare / 100.0 + 0.2 * (diversity as real) / (maxDiversity as real)
  }

  /** One popularity row: the metrics row's columns with its sales share and score. */
  function PopularityRowOf(m: CategoryMetrics, totalSales: real, maxDiversity: nat): PopularityRow
    requires totalSales != 0.0 && maxDiversity != 0
  {
    var share := m.totalSales as real / totalSales;
    PopularityRow(m.category, m.totalSales, m.revenueShare, m.productDiversity,
                  share, PopularityScore(share, m.revenueShare, m.productDiversity, maxDiversity))
  }

  /** The popularity columns of the metrics table, with sales_share and popularity_score. */
  function PopularityTable(metrics: seq<CategoryMetrics>): (t: seq<PopularityRow>)
    requires metrics != [] ==> SumOf(metrics, Sales) != 0.0 && MaxDiversity(metrics) != 0
    ensures |t| == |metrics|
  {
    var total, maxDiversity := SumOf(metrics, Sales), MaxDiversity(metrics);
    seq(|metrics|, i requires 0 <= i < |metrics| => PopularityRowOf(metrics[i], total, maxDiversity))
  }

  /**
   * The metrics table never leaves the popularity view without a
   * denominator: it has a row, its sales add up to at least 1 and its
   * largest diversity is at least 1.
   */
  lemma {:induction false} MetricsDenominators(items: seq<Item>, products: seq<EnrichedProduct>)
    requires OverallRevenue(items, products) != 0.0
    ensures var m := CalculateCategoryMetrics(items, products);
            m != [] && SumOf(m, Sales) >= 1.0 && MaxDiversity(m) >= 1
  {
    var m := CalculateCategoryMetrics(items, products);
    OverallRevenueIsColumnSum(items, products);
    assert m != [];
    MetricsRowAggregates(items, products, 0);
    SumOfNonNegative(m, Sales, 0);
  }

  /** The popularity columns of the metrics table of these items. */
  function PopularityOf(items: seq<Item>, products: seq<EnrichedProduct>): (t: seq<PopularityRow>)
    requires OverallRevenue(items, products) != 0.0
    ensures var m := CalculateCategoryMetrics(items, products);
            && m != [] && SumOf(m, Sales) >= 1.0 && MaxDiversity(m) >= 1
            && t == PopularityTable(m)
  {
    MetricsDenominators(items, products);
    PopularityTable(CalculateCategoryMetrics(items, products))
  }

  /** analyze_category_popularity: the popularity view sorted by score, largest first. */
  function AnalyzeCategoryPopularity(items: seq<Item>, products: seq<EnrichedProduct>): (r: seq<PopularityRow>)
    requires OverallRevenue(items, products) != 0.0
    ensures multiset(r) == multiset(PopularityOf(items, products))
    ensures SortedDesc(r, Score)
  {
    SortDesc(PopularityOf(items, products), Score)
  }

  /**
   * p is the popularity row of m in a table whose sales add up to `total` and
   * whose largest diversity is `maxDiversity`: it carries m's category, sales
   * count, revenue share and diversity, its sales_share is total_sales over
   * `total`, and its popularity_score weighs sales share 0.4, revenue share
   * (as a fraction) 0.4 and diversity relative to the largest 0.2.
   */
  predicate PopularityOfRow(p: PopularityRow, m: CategoryMetrics, total: real, maxDiversity: nat)
    requires total != 0.0 && maxDiversity != 0
  {
    && p.category == m.category
    && p.totalSales == m.totalSales
    && p.revenueShare == m.revenueShare
    && p.productDiversity == m.productDiversity
    && p.salesShare == m.totalSales as real / total
    && p.popularityScore == PopularityScore(p.salesShare, m.revenueShare, m.productDiversity, maxDiversity)
  }

  lemma {:induction false} PopularityTableMatches(metrics: seq<CategoryMetrics>)
    requires metrics != [] ==> SumOf(metrics, Sales) != 0.0 && MaxDiversity(metrics) != 0
    ensures forall j :: 0 <= j < |metrics| ==>
              PopularityOfRow(PopularityTable(metrics)[j], metrics[j], SumOf(metrics, Sales), MaxDiversity(metrics))
  {
  }

  /**
   * r is a reordering of a table whose j-th row is the popularity row of the
   * j-th row of m: as many rows, and every metrics row has exactly its own
   * popularity row in r.
   */
  ghost predicate PopularityRowsFor(r: seq<PopularityRow>, m: seq<CategoryMetrics>)
    requires m != [] ==> SumOf(m, Sales) != 0.0 && MaxDiversity(m) != 0
  {
    exists t: seq<PopularityRow> ::
      && |t| == |m|
      && multiset(r) == multiset(t)
      && forall j :: 0 <= j < |m| ==> PopularityOfRow(t[j], m[j], SumOf(m, Sales), MaxDiversity(m))
  }

  /**
   * The popularity view has one row per metrics row, carrying that row's
   * category, sales count, revenue share and diversity, its share of all
   * sales and the weighted popularity score.
   */
  lemma {:induction false} PopularityRowsMatchMetrics(items: seq<Item>, products: seq<EnrichedProduct>)
    requires OverallRevenue(items, products) != 0.0
    ensures PopularityRowsFor(AnalyzeCategoryPopularity(items, products), CalculateCategoryMetrics(items, products))
  {
    var m, r := CalculateCategoryMetrics(items, products), AnalyzeCategoryPopularity(items, products);
    var t := PopularityTable(m);
    assert multiset(r) == multiset(t);
    PopularityTableMatches(m);
    assert |t| == |m|;
  }

  /** No category appears twice in the popularity view. */
  lemma {:induction false} PopularityCategoriesDistinct(items: seq<Item>, products: seq<EnrichedProduct>)
    requires OverallRevenue(items, products) != 0.0
    ensures var r := AnalyzeCategoryPopularity(items, products);
            forall i, j :: 0 <= i < j < |r| ==> r[i].category != r[j].category
  {
    MetricsOneRowPerCategory(items, products);
    PopularityViewDistinct(CalculateCategoryMetrics(items, products), AnalyzeCategoryPopularity(items, products));
  }

  lemma {:induction false} PopularityViewDistinct(m: seq<CategoryMetrics>, r: seq<PopularityRow>)
    requires m != [] ==> SumOf(m, Sales) != 0.0 && MaxDiversity(m) != 0
    requires multiset(r) == multiset(PopularityTable(m))
    requires forall i, j :: 0 <= i < j < |m| ==> m[i].category != m[j].category
    ensures forall i, j :: 0 <= i < j < |r| ==> r[i].category != r[j].category
  {
    var t := PopularityTable(m);
    PopularityTableMatches(m);
    assert forall i, j :: 0 <= i < j < |t| ==> PopularityCategory(t[i]) != PopularityCategory(t[j]);
    PermutationKeepsDistinctKeys(t, r, PopularityCategory);
  }

  /** One row's sales_share is its total_sales over the table's total sales. */
  lemma {:induction false} PopularityRowSalesShare(metrics: seq<CategoryMetrics>, i: nat)
    requires i < |metrics|
    requires SumOf(metrics, Sales) != 0.0 && MaxDiversity(metrics) != 0
    ensures SalesShare(PopularityTable(metrics)[i]) == Sales(metrics[i]) / SumOf(metrics, Sales)
  {
    assert PopularityTable(metrics)[i] == PopularityRowOf(metrics[i], SumOf(metrics, Sales), MaxDiversity(metrics));
  }

  lemma {:induction false} SelfRatio(x: real)
    requires x != 0.0
    ensures x / x == 1.0
  {
  }

  /** The sales shares of a popularity table add up to 1. */
  lemma {:induction false} PopularityTableSalesShares(metrics: seq<CategoryMetrics>)
    requires metrics != []
    requires SumOf(metrics, Sales) != 0.0 && MaxDiversity(metrics) != 0
    ensures SumOf(PopularityTable(metrics), SalesShare) == 1.0
  {
    var t, total := PopularityTable(metrics), SumOf(metrics, Sales);
    forall i | 0 <= i < |t| ensures SalesShare(t[i]) == Sales(metrics[i]) / total {
      PopularityRowSalesShare(metrics, i);
    }
    SumOfRatio(metrics, Sales, t, SalesShare, total);
    SelfRatio(total);
  }

  /** sales_share: the categories' shares of all sales add up to 1. */
  lemma {:induction false} SalesSharesSumToOne(items: seq<Item>, products: seq<EnrichedProduct>)
    requires OverallRevenue(items, products) != 0.0
    ensures SumOf(AnalyzeCategoryPopularity(items, products), SalesShare) == 1.0
  {
    MetricsDenominators(items, products);
    SumOfPermutation(AnalyzeCategoryPopularity(items, products), PopularityOf(items, products), SalesShare);
    PopularityTableSalesShares(CalculateCategoryMetrics(items, products));
  }

  lemma {:induction false} ScoreBounds(salesShare: real, revenueShare: real, diversity: nat, maxDiversity: nat)
    requires 0.0 <= salesShare <= 1.0 && 0.0 <= revenueShare <= 100.0 && diversity <= maxDiversity && maxDiversity != 0
    ensures 0.0 <= PopularityScore(salesShare, revenueShare, diversity, maxDiversity) <= 1.0
  {
    var d, m := diversity as real, maxDiversity as real;
    RatioBounds(d, m);
    assert 0.2 * d / m == 0.2 * (d / m);
    assert 0.4 * revenueShare / 100.0 == 0.4 * (revenueShare / 100.0);
  }

  /** The scores of a popularity table lie in [0, 1] when its revenue shares lie in [0, 100]. */
  lemma {:induction false} PopularityTableScores(metrics: seq<CategoryMetrics>)
    requires metrics != []
    requires SumOf(metrics, Sales) != 0.0 && MaxDiversity(metrics) != 0
    requires forall i :: 0 <= i < |metrics| ==> 0.0 <= metrics[i].revenueShare <= 100.0
    ensures var t := PopularityTable(metrics);
            forall i :: 0 <= i < |t| ==> 0.0 <= t[i].salesShare <= 1.0 && 0.0 <= t[i].popularityScore <= 1.0
  {
    var t, total := PopularityTable(metrics), SumOf(metrics, Sales);
    forall i | 0 <= i < |t| ensures 0.0 <= t[i].salesShare <= 1.0 && 0.0 <= t[i].popularityScore <= 1.0 {
      SumOfNonNegative(metrics, Sales, i);
      RatioBounds(metrics[i].totalSales as real, total);
      ScoreBounds(t[i].salesShare, metrics[i].revenueShare, metrics[i].productDiversity, MaxDiversity(metrics));
    }
  }

  /**
   * With non-negative prices every sales share lies in [0, 1] and every
   * popularity score in [0, 1].
   */
  lemma {:induction false} PopularityScoreBounds(items: seq<Item>, products: seq<EnrichedProduct>)
    requires OverallRevenue(items, products) != 0.0
    requires NonNegativePrices(items)
    ensures var r := AnalyzeCategoryPopularity(items, products);
            forall i :: 0 <= i < |r| ==> 0.0 <= r[i].salesShare <= 1.0 && 0.0 <= r[i].popularityScore <= 1.0
  {
    var r, t := AnalyzeCategoryPopularity(items, products), PopularityOf(items, products);
    MetricsDenominators(items, products);
    NonNegativePricesBoundShares(items, products);
    PopularityTableScores(CalculateCategoryMetrics(items, products));
    forall i | 0 <= i < |r| ensures 0.0 <= r[i].salesShare <= 1.0 && 0.0 <= r[i].popularityScore <= 1.0 {
      assert r[i] in multiset(t);
    }
  }
}
