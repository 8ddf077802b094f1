# Bestseller dashboard: aggregation and ranking in Dafny

This project models the computational core of a React sales dashboard for
newly launched cosmetics products. The core is everything the pages compute
from the product catalog before they hand data to charts:

- the per-category rollup `getCategoryData`: group by category, sum units and
  revenue, count products, then sort by revenue;
- the catalog-wide `getStats`: totals, mean growth rate and rating, the best
  seller, and the fastest grower;
- the "top ten by one field" ranking that each page repeats:
  - the dashboard ranks by units;
  - the sales page ranks by revenue;
  - the growth page ranks by growth rate;
- the growth page's three-bucket distribution, row colour and status label;
- the dashboard's category list with its `'ALL'` sentinel, its currency unit
  choice (억 / 만 / plain), and its pie and legend colours;
- the sales page's rounded average unit price, its copy of the currency
  formatter, and its pie colours.

Modules:

- `Seqs`: sums, means and filtered counts over sequences, with the algebra
  the proofs need.
- `Optional`: the result of `Map.prototype.get`.
- `Ranking`: the stable descending sort `[...xs].sort((a, b) => key(b) - key(a))`
  as an insertion sort (`SortDesc`), and `slice(0, n)` after it (`TopN`).
  `Array.prototype.sort` is stable (ECMAScript 2019, section 22.1.3.27).
- `Products`: `src/data/products.ts`.
- `Money`: the unit a formatter picks.
- `GrowthPage`, `DashboardPage` and `SalesPage`: the three pages.
- `SampleCatalog`: the twenty records the application ships with.

Every operation takes the catalog as a parameter instead of reading the
module-level `products` array. Units, revenue, price and stock are whole
numbers. Growth rates and ratings are exact reals.

On the shipped records the growth chart shows seven high, nine medium and
four low (`SampleCatalog.SampleDistribution`).

## Model

| member | source | states |
|---|---|---|
| Ranking.SortDesc | src/data/products.ts:117-118 | The sorted copy is a permutation of the input. It is non-increasing by the key. Every run of equal keys keeps its input order, which is the stability `Array.prototype.sort` guarantees. |
| Ranking.SortDescCharacterized | src/data/products.ts:117-118 | A sequence is the sorted copy if and only if it is non-increasing by the key and keeps each equal-key class in input order, so any stable descending sort gives this exact result. |
| Ranking.StableKeepsTieOrder | src/data/products.ts:108 | Any order among equal-key elements of the input survives the sort. |
| Ranking.TopN | src/pages/DashboardPage.tsx:29 | `slice(0, n)` of the sorted copy has length `min(n, |s|)`. It is a prefix of the sorted copy and is non-increasing. It is a sub-multiset of the input. No element left out has a larger key than an element kept. |
| Ranking.TopNFromInput | src/pages/SalesPage.tsx:21 | Every element of a top-N list comes from the input, and the list repeats nothing when the input repeats nothing. |
| Ranking.FirstMaxIndex | src/data/products.ts:117 | The reference argmax: an index whose key is maximal and strictly above every earlier key. |
| Ranking.FirstMaxUnique | src/data/products.ts:117 | At most one index is the first maximum. |
| Ranking.SortHeadIsFirstMax | src/data/products.ts:117-118 | The head of the stable descending sort is the element at the first index of maximal key. |
| Seqs.SumPermutation | src/data/products.ts:108 | Reordering a sequence does not change a sum over it. |
| Seqs.MeanWithinBounds | src/data/products.ts:115-116 | The mean of values that all lie in `[lo, hi]` lies in `[lo, hi]`. |
| Seqs.CountPartition | src/pages/GrowthPage.tsx:24-26 | When three tests accept every element exactly once, their filtered counts add up to the length. |
| Products.DistinctCategories | src/data/products.ts:93-105 | The categories in the order `Map` iteration yields them: each occurring category exactly once, none other, ordered by first occurrence in the catalog. |
| Products.IndexOfCategory | src/data/products.ts:93 | `categoryMap.get` finds the row holding the category, and answers `None` exactly when no row holds it. |
| Products.Accumulate | src/data/products.ts:93-105 | One `forEach` step: a product of a category that already has a row leaves the number of rows unchanged. A product of a new category appends the row `{category, salesQty, revenue, productCount: 1}`. Either way the column sums of units, revenue and product count grow by exactly the product's units, its revenue and one. |
| Products.AccumulateKeepsRows | src/data/products.ts:93-105 | A step keeps every existing row at its position with its category, and leaves the rows of other categories as they were. |
| Products.CategoryTotalSnoc | src/data/products.ts:94-104 | Appending a product adds its units and revenue, and one to the count, of its own category's total, and leaves every other category's total unchanged. |
| Products.GroupByCategory | src/data/products.ts:90-106 | After the `forEach` there is one row per distinct category, in first-occurrence order. Each row is the exact total of its category's products. Units, revenue and product count are conserved. |
| Products.GetCategoryData | src/data/products.ts:89-109 | The rollup is non-increasing by revenue, and equal revenues keep first-occurrence order. Categories are pairwise distinct and are exactly those of the catalog. Each row equals its category's total and has `productCount >= 1`. Units, revenue and product count are conserved. The result is empty exactly when the catalog is. |
| Products.GetStats | src/data/products.ts:112-129 | The totals are the plain sums and `productCount` is the catalog length. Each average times the length gives the sum. `topProduct` is the first product with maximal units and `fastestGrowing` the first with maximal growth rate. |
| Products.TopByKey | src/data/products.ts:117-118 | `[...products].sort(...)[0]` is the first catalog element of greatest key. |
| Products.StatsAgreeWithRollup | src/data/products.ts:113-127 | The catalog totals of units, revenue and product count equal the sums over the category rollup. |
| Products.AverageRatingInRange | src/data/products.ts:116 | Ratings on the 0 to 5 scale average to a value on that scale. |
| Products.AverageGrowthAtMostFastest | src/data/products.ts:115-118 | The mean growth rate never exceeds the growth rate of `fastestGrowing`. |
| GrowthPage.ProductsByGrowth | src/pages/GrowthPage.tsx:17-19 | `productsByGrowth` is a permutation of the catalog, non-increasing by growth rate, with equal rates in catalog order. |
| GrowthPage.TopGrowthProducts | src/pages/GrowthPage.tsx:21 | The top ten has length `min(10, |catalog|)` and is a prefix of `productsByGrowth`. It holds catalog products only, and nothing left out grows faster than anything kept. |
| GrowthPage.RankingStartsWithFastest | src/pages/GrowthPage.tsx:17-21 | On a non-empty catalog the ranking and its top ten both start with the record `getStats` reports as `fastestGrowing`. |
| GrowthPage.GrowthColor | src/pages/GrowthPage.tsx:34-38 | The colour is green exactly when the rate is at least 50, amber exactly when it is in [30, 50), and slate exactly below 30. |
| GrowthPage.StatusLabel | src/pages/GrowthPage.tsx:169 | The label is 고성장 exactly at 50 and above, 중성장 exactly in [30, 50), and 저성장 exactly below 30. |
| GrowthPage.EncodingsAgree | src/pages/GrowthPage.tsx:24-38 | The chart's filter predicate, the row colour and the status label of a product all name the same bucket. |
| GrowthPage.ExactlyOneBucket | src/pages/GrowthPage.tsx:24-26 | Each product satisfies exactly one of the three filter predicates. |
| GrowthPage.GrowthDistribution | src/pages/GrowthPage.tsx:23-32 | There are three slices, high, medium and low, in that order. Their values add up to the catalog size. Each value is the number of products `getGrowthColor` paints in that slice's colour, and equally the number of table rows, drawn from `productsByGrowth`, in that colour. |
| GrowthPage.TableColorCounts | src/pages/GrowthPage.tsx:141 | The table over `productsByGrowth` has as many rows of each colour as the catalog has products of that colour. |
| Seqs.CountPermutation | src/pages/GrowthPage.tsx:24-26 | Reordering a sequence does not change a filtered count over it. |
| GrowthPage.DistributionCounts | src/pages/GrowthPage.tsx:24-26 | The three filtered counts partition the catalog, and each equals the count of products `getGrowthColor` paints in the bucket's colour. |
| DashboardPage.Top10Products | src/pages/DashboardPage.tsx:28-30 | `top10Products` has length `min(10, |catalog|)`. It is a prefix of the stable descending sort by units, and is non-increasing. It holds catalog products only, and no duplicates when the catalog has none. Nothing left out sold more than anything kept. |
| DashboardPage.SelectCategory | src/pages/DashboardPage.tsx:56 | Choosing a category replaces `selectedCategory` and keeps `sortBy`. |
| DashboardPage.SelectSort | src/pages/DashboardPage.tsx:139 | Choosing a sort key replaces `sortBy` and keeps `selectedCategory`. |
| DashboardPage.ViewIgnoresState | src/pages/DashboardPage.tsx:22-34 | Choosing a category or a sort key changes nothing the page derives. The top ten is the one for the initial state. |
| DashboardPage.Categories | src/pages/DashboardPage.tsx:32-34 | `'ALL'` comes first. Then each catalog category appears exactly once, in first-occurrence order. |
| DashboardPage.FormatCurrency | src/pages/DashboardPage.tsx:37-41 | The unit is 억 exactly when the amount is at least 10^8, 만 exactly in [10^4, 10^8), and plain exactly below 10^4. The chosen form stands for the same amount. |
| DashboardPage.FormatCurrencyInverse | src/pages/DashboardPage.tsx:37-41 | Formatting the amount of any normalised form gives that form back. So, in the model, formatting is a bijection between amounts and normalised forms. The page's `toFixed` text is many-to-one, and this claim is not about it. |
| DashboardPage.PieSliceColor | src/pages/DashboardPage.tsx:190 | A mapped category takes its colour. An unmapped one takes `COLORS[index % 6]`. Either way the colour comes from the palette or the category map. |
| DashboardPage.LegendColor | src/pages/DashboardPage.tsx:203 | A mapped category's dot takes its colour. An unmapped one's dot is `COLORS[0]`, `'#6366f1'`, whatever its index. |
| DashboardPage.LegendMatchesSlice | src/pages/DashboardPage.tsx:190-203 | The legend dot equals the slice colour exactly when the category is mapped or its index is a multiple of 6. |
| DashboardPage.LegendMismatchWitness | src/pages/DashboardPage.tsx:203 | An unmapped category at index 1 gets a legend dot of a different colour from its slice. |
| DashboardPage.MatchedLegendColor | src/pages/DashboardPage.tsx:190 | The corrected legend colour equals the slice colour, and agrees with the legend as written exactly where `LegendMatchesSlice` says they agree. |
| DashboardPage.DashboardView | src/pages/DashboardPage.tsx:22-206 | The page as written: the slice colours (line 190) and the legend colours (line 203) each run one per rollup row. The category selector has one entry per rollup row after `'ALL'`. |
| DashboardPage.RollupMatchesSelector | src/pages/DashboardPage.tsx:25-34 | The rollup has exactly as many rows as the selector has categories. |
| DashboardPage.ViewLegendAgainstPie | src/pages/DashboardPage.tsx:189-206 | On the page as written, each legend dot equals its slice's colour exactly when the row's category is mapped or the row's index is a multiple of 6. |
| DashboardPage.LegendFollowsPie | src/pages/DashboardPage.tsx:189-206 | With the corrected legend, `MatchedLegendColor` at each index, every dot has the colour of the slice the page draws for that rollup row. |
| SalesPage.TopProductsByRevenue | src/pages/SalesPage.tsx:20-22 | `topProductsByRevenue` has length `min(10, |catalog|)`. It is a prefix of the stable descending sort by revenue, and is non-increasing. It holds catalog products only, and no duplicates when the catalog has none. Nothing left out earned more than anything kept. |
| SalesPage.FormatCurrency | src/pages/SalesPage.tsx:25-29 | This page's formatter keeps the amount and produces a normalised form. |
| SalesPage.SameUnitsAsDashboard | src/pages/SalesPage.tsx:25-29 | Both pages' formatters pick the same unit and quotient for every amount. |
| SalesPage.AverageUnitPrice | src/pages/SalesPage.tsx:71 | `Math.round(totalRevenue / totalSales)` is the integer nearest the quotient, the upper one on a tie: `2R - S < 2rS <= 2R + S`. |
| SalesPage.AverageUnitPriceUnique | src/pages/SalesPage.tsx:71 | Only one integer meets those rounding bounds, so they define the price. |
| SalesPage.SliceColor | src/pages/SalesPage.tsx:121 | A mapped category's slice takes its colour. An unmapped one's slice is `'#6366f1'`, whatever its index. |
| SalesPage.SameColorsAsDashboard | src/pages/SalesPage.tsx:9-15 | This page's category colour map equals the dashboard's. A slice's fill, the mapped colour or `'#6366f1'`, equals the dashboard legend's colour for that category. |
| SampleCatalog.SampleFigures | src/data/products.ts:31-52 | The shipped records carry the listed growth rates and units position by position, and position 12 is NP013. |
| SampleCatalog.SampleDistribution | src/data/products.ts:32-51 | On the shipped records the growth chart shows 7 high, 9 medium and 4 low. |
| SampleCatalog.HighCount | src/pages/GrowthPage.tsx:24 | Any catalog with the shipped growth rates has 7 products at 50% or more. |
| SampleCatalog.MediumCount | src/pages/GrowthPage.tsx:25 | Any catalog with the shipped growth rates has 9 products in [30%, 50%). |
| SampleCatalog.LowCount | src/pages/GrowthPage.tsx:26 | Any catalog with the shipped growth rates has 4 products below 30%. |
| SampleCatalog.Leaders | src/data/products.ts:117-118 | On the shipped figures, NP013 at position 12 is both `topProduct` and `fastestGrowing`. |
| SampleCatalog.LeadersOnSample | src/data/products.ts:117-118 | On the shipped records themselves, `getStats` reports NP013 as both `topProduct` and `fastestGrowing`. |

## Left out

- JSX, layout, recharts configuration, lucide icons and CSS: rendering only.
- `src/App.tsx` and `src/components/Sidebar.tsx`: page switching and navigation styling. They are not part of this model.
- `useMemo` caching and React re-rendering: every derived value is a pure function of the catalog.
- The digits `toLocaleString('ko-KR')` and `toFixed` print: these are runtime locale and float-to-string behaviour. `FormatCurrency` keeps the exact quotient that `toFixed` rounds for display.
- Floating point: growth rates, ratings and averages are exact reals. Also left out are the rounded star count (`DashboardPage.tsx:120`), the percentage text on the growth page and in the pie labels, and JS numbers past 2^53.
- `dailyTrends`: literal chart data that no code computes over.
- Hard-coded KPI badges such as `+23.5%` and `+31.2%`: constants, not logic.
- A category filter or user-chosen sort: neither exists in the code. The dropdown state is modelled only to show that nothing derived depends on it. The two `<select>` elements read it as their own `value` (`src/pages/DashboardPage.tsx:55`, `:138`), which is rendering only.
- Products.GetStats: requires a non-empty catalog. On an empty one the source divides 0 by 0 and reads `[][0]`, giving `NaN` averages and `undefined` leaders, and the model has no such values.
- SalesPage.AverageUnitPrice: requires `totalSales > 0`. The source divides without a guard and would show `NaN` or `Infinity`.
- DashboardPage.PieSliceColor: the lookup treats `CATEGORY_COLORS` as a finite map. In the source it is a plain object, so a category named after an inherited property such as `constructor` or `toString` reads a truthy prototype member and skips the `||` fallback. The model ignores inherited object properties.
- DashboardPage.LegendColor: the lookup ignores inherited object properties, for the same reason as `PieSliceColor`.
- SalesPage.SliceColor: the lookup ignores inherited object properties of the page's `CATEGORY_COLORS` object, for the same reason as `DashboardPage.PieSliceColor`.

## Findings

| source | as written | input that shows it | evidently intended | confidence | as-written member | corrected member |
|---|---|---|---|---|---|---|
| src/pages/DashboardPage.tsx:203 | The legend dot of a category outside `CATEGORY_COLORS` is always `'#6366f1'`, while its pie slice (line 190) is `COLORS[index % 6]`. | A rollup whose second row is an unmapped category such as 바디케어: the slice is `#8b5cf6` and the dot is `#6366f1`. The shipped data uses only mapped categories, so it does not show the mismatch. | The legend dot has its slice's colour. | medium, not executed | DashboardPage.LegendMismatchWitness | DashboardPage.MatchedLegendColor |
