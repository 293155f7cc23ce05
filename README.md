# Olist category analytics, modelled in Dafny

This project models the category pipeline of the Olist e-commerce analysis:

- **`CategoryMapper`** (`category_mapper.dfy`) builds a mapping table from Portuguese
  category names to normalised English labels. The label is the English translation,
  title-cased, with every space turned into `_`; a null translation becomes `"Unknown"`.
  The mapper drops duplicate rows, saves the table to its mapping file, loads it back,
  and answers lookups. A lookup returns the label of the first matching row, or
  `"Unknown"` when no row matches. The class `Mapper` holds the in-memory table
  (`mapping`) and the contents of the mapping file (`file`).
- **`DataLoader`** (`data_loader.dfy`) prepares the product categories. When no mapping
  file exists it builds the mapping, otherwise it loads it. It then left-merges the
  products with the translation table and labels every row through the mapper.
- **`Analyzer`** (`analyzer.dfy`) computes three views:
  - the category metrics: a left join of the order items with the labelled products,
    then a group-by on the label with count, sum, mean and distinct-count aggregates,
    the revenue share, the average-method revenue rank, and a sort by revenue;
  - the average-ticket view;
  - the popularity view.
- **`TableOps`** (`table_ops.dfy`) holds the table primitives those views share:
  - column sums;
  - first-occurrence `drop_duplicates`;
  - a descending sort;
  - pandas' `rank(ascending=False)`, which is the average rank.
- **`Wrappers`** (`wrappers.dfy`) holds the `Option`, `Outcome` and `Result` types.

A null cell (NaN) is `None`. Data-frame columns are sequences of rows. Floating-point
columns are `real`.

## Model

| member | source | states |
|---|---|---|
| CategoryMapper.Normalize | src/category_mapper.py:15-16 | Defines the label of a translation: "Unknown" for a null, otherwise title case with spaces turned into `_`. Its properties are stated by `NormalizeSpec` and `NormalizeIdempotent`. |
| CategoryMapper.NormalizeSpec | src/category_mapper.py:15-16 | A null translation gives exactly "Unknown". Otherwise the label has the translation's length, and each character is '_' where the translation has a space, else upper case at the start of a word and lower case elsewhere, as `str.title` does. No label ever contains a space. |
| CategoryMapper.NormalizeIdempotent | src/category_mapper.py:15-16 | Normalising a label that is already normalised leaves it unchanged. |
| CategoryMapper.Lookup | src/category_mapper.py:42-48 | The answer is the label of the first row whose Portuguese name equals the query, and "Unknown" when no row matches (a null query matches nothing). |
| CategoryMapper.LookupDropDuplicates | src/category_mapper.py:20 | Dropping duplicate rows from the mapping never changes the answer of a lookup. |
| CategoryMapper.LookupBuiltMapping | src/category_mapper.py:10-20 | In a mapping built from a translation table, looking up a name gives the normalised translation of the first translation row with that name, and "Unknown" when no row has it. |
| CategoryMapper.Mapper.constructor | src/category_mapper.py:6-8 | A new mapper holds no mapping and sees the given mapping file. |
| CategoryMapper.Mapper.CreateInitialMapping | src/category_mapper.py:10-23 | The mapper holds the de-duplicated mapping built from the translation table, and the file holds the same table. |
| CategoryMapper.Mapper.LoadMapping | src/category_mapper.py:25-30 | If the file exists, the mapper now holds its contents. If it does not, the call fails with "file not found" and changes nothing. |
| CategoryMapper.Mapper.SaveMapping | src/category_mapper.py:32-35 | The file takes the held mapping when there is one, and is left unchanged otherwise. |
| CategoryMapper.Mapper.GetNormalizedCategory | src/category_mapper.py:37-48 | A held mapping answers the lookup and stays as it was. Without one, the saved mapping is loaded first and answers. The call fails exactly when there is neither a mapping nor a file. |
| CategoryMapper.BuildSaveAndReload | src/category_mapper.py:10-48 | A second mapper reading the file that the first one saved answers every query exactly as the raw translation rows would, duplicates included. |
| TableOps.DropDuplicates | src/category_mapper.py:20 | Defines `drop_duplicates`: keep a row only if it is the first occurrence of its value. `DropDuplicatesKeepsFirst` proves what that gives. |
| TableOps.DropDuplicatesKeepsFirst | src/category_mapper.py:20 | `drop_duplicates` keeps each distinct row exactly once: the result holds every row of its input and no other, has no duplicates, and lists the rows in the order of their first occurrence. |
| TableOps.SortDesc | src/analyzer.py:62 | The sorted table is a permutation of its input and is ordered by the key, largest first. |
| TableOps.SumOfPermutation | src/analyzer.py:57 | A column sum does not depend on row order, so sorting a table keeps its totals. |
| TableOps.RankDesc | src/analyzer.py:60 | Defines the average descending rank of a key in a column: the rows above it, plus half of one more than the rows tied with it. `RankDescProperties` states its bounds and order. |
| TableOps.RankDescProperties | src/analyzer.py:60 | The average rank of a key present in the column lies between 1 and the number of rows. A larger key gets a strictly smaller rank, and equal keys share one rank. |
| TableOps.RankColumnProperties | src/analyzer.py:60 | In a rank column, every rank lies in [1, n]; equal keys have equal ranks; a larger key has a smaller rank; ranks do not decrease down a table sorted by the key; and a strict maximum has rank 1. |
| TableOps.RankColumnPermutation | src/analyzer.py:60-62 | Reordering the rows (for example, sorting them) keeps a rank column a rank column. |
| DataLoader.LeftMerge | src/data_loader.py:37-41 | Defines the left merge on product_category_name: each product gives one row per translation row with its name, in table order, or one row with a null translation when there is none. As in pandas, a null name pairs with translation rows whose name is null. `LeftMergeKeepsEveryProduct` and `LeftMergeOneRowPerProduct` state its properties. |
| DataLoader.ApplyMapping | src/data_loader.py:44-46 | Defines the labelling: every merged row gets the mapper's lookup of its raw category. `EnrichedLabels` and `FirstRunLabels` state the labels. |
| DataLoader.LeftMergeKeepsEveryProduct | src/data_loader.py:37-41 | The left merge keeps every product. Each product reappears with its id and raw category, and the merge never has fewer rows than products. |
| DataLoader.LeftMergeOneRowPerProduct | src/data_loader.py:37-41 | When translation names are unique, the merge has one row per product, in product order, carrying that product's translation, or null when its category has none. |
| DataLoader.EnrichedLabels | src/data_loader.py:44-46 | Every merged row is labelled with the mapper's lookup of its raw category. A null or unmapped raw category gets "Unknown". |
| DataLoader.FirstRunLabels | src/data_loader.py:31-46 | For any translation table, on a first run a row with a null raw category gets "Unknown", and any other row gets the normalised English of the first translation row with its name ("Unknown" when there is none). When translation names are unique, that English is the row's own merged English column. |
| DataLoader.Loader.constructor | src/data_loader.py:7-10 | The loader owns a fresh mapper with no mapping over the given mapping file. |
| DataLoader.Loader.PrepareProductCategories | src/data_loader.py:25-48 | Without a mapping file, the mapping is built from the translation table and saved. With one, the file's mapping is loaded. Either way the result is the merged products, each labelled by the held mapping. |
| Analyzer.JoinSales | src/analyzer.py:34-38 | Defines the left join of items with the labelled products on product_id: one row per matching product row, or one row with a null category. `JoinSalesObserved`, `UnmatchedItemJoinsNull` and `JoinSalesAppend` state its properties. |
| Analyzer.JoinSalesAppend | src/analyzer.py:34-38 | Joining two runs of items one after the other gives the two joins one after the other. |
| Analyzer.JoinSalesObserved | src/analyzer.py:34-38 | A category appears in the joined sales exactly when some item's product is in the products table with that category. |
| Analyzer.UnmatchedItemJoinsNull | src/analyzer.py:34-38 | An item whose product_id is in no product row joins with a null category. |
| Analyzer.UnmatchedItemIgnored | src/analyzer.py:34-45 | Such an item, inserted anywhere among the items, changes neither the groups, nor the total revenue, nor the metrics table. |
| Analyzer.Categories | src/analyzer.py:41 | The group keys are distinct, and a key is present exactly when some joined row carries that non-null category. |
| Analyzer.AggregateGroup | src/analyzer.py:42-44 | Defines the aggregates of one group: item count, price sum, price mean and number of distinct product ids. `MetricsRowAggregates` states them for every row of the metrics table. |
| Analyzer.GroupBy | src/analyzer.py:41-45 | Defines the group-by: one aggregate row per distinct non-null category, from that category's items. `Categories`, `MetricsOneRowPerCategory` and `MetricsAccountForJoinedItems` state its properties. |
| Analyzer.ProductIdsBounded | src/analyzer.py:44 | A group has at least one distinct product, and no more distinct products than items. |
| Analyzer.AddShareAndRank | src/analyzer.py:57-60 | Adds revenue_share and revenue_rank to the grouped rows, one output row per group. `RevenueShareOfRow` states each row's revenue_share, `RevenueSharesSumTo100` the column's sum, and `RevenueRankIsAverageRank` each row's revenue_rank. |
| Analyzer.CalculateCategoryMetrics | src/analyzer.py:24-62 | The result holds exactly the rows of the grouped metrics table, with share and rank, ordered by total revenue, largest first. |
| Analyzer.MetricsRowAggregates | src/analyzer.py:41-54 | For each row's category: total_sales is the number of joined items; total_revenue is the sum of their prices; avg_ticket times total_sales equals total_revenue; product_diversity is the number of distinct product ids, between 1 and total_sales. |
| Analyzer.MetricsOneRowPerCategory | src/analyzer.py:34-54 | There is one row per category, and a category has a row exactly when some item's product carries it. |
| Analyzer.MetricsAccountForJoinedItems | src/analyzer.py:41-54 | The sales column adds up to the number of joined items that have a category, and the revenue column adds up to the sum of their prices. |
| Analyzer.OverallRevenueIsColumnSum | src/analyzer.py:57 | The denominator of revenue_share is the sum of the table's total_revenue column. |
| Analyzer.RevenueShareOfRow | src/analyzer.py:57 | In the sorted metrics table, every row's revenue_share is its total_revenue divided by the sum of the total_revenue column, times 100, and that sum is non-zero. |
| Analyzer.RevenueSharesSumTo100 | src/analyzer.py:57 | The revenue shares add up to exactly 100. |
| Analyzer.NonNegativePricesBoundShares | src/analyzer.py:41-57 | With non-negative prices, every revenue share lies in [0, 100] and every average ticket is non-negative. |
| Analyzer.RevenueRankIsAverageRank | src/analyzer.py:60 | revenue_rank is the average rank of the row's revenue among all rows, largest first. |
| Analyzer.RevenueRankProperties | src/analyzer.py:60-62 | Ranks lie in [1, n]; equal revenues share a rank; a larger revenue has a smaller rank; ranks do not decrease down the sorted table; a strictly largest revenue has rank 1. |
| Analyzer.TicketTable | src/analyzer.py:182-188 | Builds one ticket row per metrics row, with ticket_rank and relative_to_mean. `TicketRowsMatchMetrics` states each row's relative_to_mean, `TicketRankProperties` its ticket_rank, and `RelativeToMeanSumsToCount` the sum of relative_to_mean. |
| Analyzer.AnalyzeAverageTicket | src/analyzer.py:180-190 | The ticket view holds exactly the ticket rows built from the metrics table, ordered by average ticket, largest first. |
| Analyzer.TicketRowsMatchMetrics | src/analyzer.py:182-188 | The ticket view is a reordering of one row per metrics row. Each row carries its metrics row's category, avg_ticket and total_sales, with relative_to_mean = avg_ticket / mean of avg_ticket. |
| Analyzer.TicketCategoriesDistinct | src/analyzer.py:182-184 | No category appears twice in the ticket view. |
| Analyzer.TicketRankProperties | src/analyzer.py:187-190 | ticket_rank is the average rank by avg_ticket, largest first. It lies in [1, n], is equal for equal tickets, is smaller for larger tickets, and does not decrease down the sorted view. |
| Analyzer.RelativeToMeanSumsToCount | src/analyzer.py:188 | The relative_to_mean column adds up to the number of rows. |
| Analyzer.NonNegativePricesGiveTicketMean | src/analyzer.py:188 | With non-negative prices and a non-zero revenue, the mean average ticket is positive, so relative_to_mean is always defined. |
| Analyzer.MaxDiversity | src/analyzer.py:204 | Every product_diversity is at most the maximum, and the maximum is attained by some row of a non-empty table. |
| Analyzer.MetricsDenominators | src/analyzer.py:199-204 | Whenever the metrics are defined, the table has a row, its sales add up to at least 1, and its largest diversity is at least 1. So neither popularity denominator can be zero. |
| Analyzer.PopularityScore | src/analyzer.py:201-205 | Defines the popularity score: 0.4 × sales_share + 0.4 × revenue_share / 100 + 0.2 × diversity / max diversity. `PopularityScoreBounds` puts it in [0, 1]. |
| Analyzer.PopularityTable | src/analyzer.py:194-205 | Builds one popularity row per metrics row, with sales_share and popularity_score. `PopularityRowsMatchMetrics`, `SalesSharesSumToOne` and `PopularityScoreBounds` state what its rows and columns hold. |
| Analyzer.AnalyzeCategoryPopularity | src/analyzer.py:192-207 | The popularity view holds exactly the popularity rows built from the metrics table, ordered by popularity score, largest first. |
| Analyzer.PopularityRowsMatchMetrics | src/analyzer.py:194-205 | The popularity view is a reordering of one row per metrics row. Each row carries its metrics row's category, sales, revenue share and diversity, with sales_share = total_sales / total sales and popularity_score = 0.4 × sales_share + 0.4 × revenue_share / 100 + 0.2 × diversity / max diversity. |
| Analyzer.PopularityCategoriesDistinct | src/analyzer.py:194-196 | No category appears twice in the popularity view. |
| Analyzer.SalesSharesSumToOne | src/analyzer.py:199-200 | The sales shares add up to exactly 1. |
| Analyzer.PopularityScoreBounds | src/analyzer.py:200-205 | With non-negative prices, every sales share and every popularity score lies in [0, 1]. |

## Left out

- Reading the CSV files (`load_data`) is not modelled. The loader receives the products
  and translation tables as values.
- The entry point, the plots, the Excel reports, and the monthly and delivery analyses
  are not modelled. The sellers table is read by `load_data` and never used.
- The Excel mapping file is the field `Mapper.file`. Saving and reading back are modelled
  as a lossless round trip, and the file's existence is that field being present.
  Excel's type coercion of cells is not modelled.
- Columns are `real`, not IEEE-754 doubles: rounding in sums, shares, means and ranks is
  not modelled, and neither is a NaN or infinity coming out of a zero denominator.
  The source has four unguarded denominators: the total revenue (src/analyzer.py:57), the
  mean avg_ticket (src/analyzer.py:188), the total sales (src/analyzer.py:200) and the
  largest diversity (src/analyzer.py:204). Only the total revenue, and for the ticket view
  the mean avg_ticket, become preconditions. The two popularity denominators are proved
  non-zero from the first precondition (`Analyzer.MetricsDenominators`). The revenue
  precondition also excludes the case where no item matches a product and the metrics
  table is empty. There pandas divides nothing and
  returns empty frames from all three views; the model does not cover that case.
- Analyzer.AnalyzeAverageTicket: also requires the mean average ticket to be non-zero,
  the ticket view's own denominator. It holds whenever prices are non-negative
  (`Analyzer.NonNegativePricesGiveTicketMean`). The mean of an empty column, NaN in
  pandas, is taken as 0.
- The title-casing covers ASCII letters only. Unicode case mapping beyond ASCII is not
  modelled.
- Group order is first appearance in the joined rows; pandas sorts the group keys. The
  descending sorts by revenue, by avg_ticket and by popularity_score are not stable, so the
  contracts fix each view only up to the order of equal keys. Those ties are where the
  group order could show.
- order_item_id, price and product_id are taken to be non-null. pandas' `count` and `mean`
  skip nulls; the model counts and averages every item of a group. pandas' `nunique` also
  skips nulls, and its merge pairs null product_ids with each other, so a group could have
  diversity 0 there. The model's item always has a product_id, so every group has a
  diversity of at least 1.
- Analyzer.MetricsDenominators: its bound that the largest diversity is at least 1 rests on
  product_id being non-null. With null product_ids, pandas' maximum diversity could be 0.
- The revenue rank and the ticket rank use pandas' default average method (ties share
  the mean of their positions). They are not dense ranks.
- An item whose product is missing from the products table joins with a null category,
  and the group-by drops it. It is not counted under "Unknown" (`Analyzer.UnmatchedItemIgnored`).
- The mapping's `drop_duplicates` removes rows that repeat the whole
  (Portuguese, English, label) triple. It does not de-duplicate on the Portuguese name
  alone, so lookups take the first matching row.
- The reports directory created by the analyzer's constructor is file-system I/O and is
  not modelled; the analyzer's operations are functions of the items and products tables.
