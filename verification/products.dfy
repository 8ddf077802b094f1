/** The product catalog and its two aggregations: the per-category rollup
    `getCategoryData` and the catalog-wide `getStats`. Both are modelled over
    a catalog parameter rather than the module-level `products` array. */
module Products {
  import opened Seqs
  import opened Optional
  import opened Ranking

  /** One product record. Quantities and amounts are whole numbers; growth
      rate and rating are exact reals standing in for JS doubles. */
  datatype Product = Product(
    id: string,
    name: string,
    category: string,
    launchDate: string,
    price: nat,
    salesQty: nat,
    revenue: nat,
    growthRate: real,
    rating: real,
    stock: nat)

  /** One row of the category rollup. */
  datatype CategoryData = CategoryData(category: string, salesQty: int, revenue: int, productCount: nat)

  /** The object `getStats` returns. */
  datatype Stats = Stats(
    totalSales: int,
    totalRevenue: int,
    avgGrowthRate: real,
    avgRating: real,
    topProduct: Product,
    fastestGrowing: Product,
    productCount: nat)

  // Field projections, used as summands and sort keys.

  function SalesQty(p: Product): int { p.salesQty }
  function Revenue(p: Product): int { p.revenue }
  function SalesKey(p: Product): real { p.salesQty as real }
  function RevenueKey(p: Product): real { p.revenue as real }
  function GrowthKey(p: Product): real { p.growthRate }
  function RatingOf(p: Product): real { p.rating }

  function GroupSales(g: CategoryData): int { g.salesQty }
  function GroupRevenue(g: CategoryData): int { g.revenue }
  function GroupCount(g: CategoryData): int { g.productCount }
  function GroupRevenueKey(g: CategoryData): real { g.revenue as real }

  /** The categories that occur in the catalog. */
  ghost function CategorySet(catalog: seq<Product>): set<string> {
    set p | p in catalog :: p.category
  }

  /** The categories named by a list of rollup rows. */
  ghost function CategoriesOf(groups: seq<CategoryData>): set<string> {
    set g | g in groups :: g.category
  }

  /** The products of category `c`, in catalog order. */
  function InCategory(catalog: seq<Product>, c: string): (r: seq<Product>)
    ensures forall p :: p in r <==> p in catalog && p.category == c
    decreases |catalog|
  {
    if |catalog| == 0 then []
    else if catalog[0].category == c then [catalog[0]] + InCategory(catalog[1..], c)
    else InCategory(catalog[1..], c)
  }

  /** Reference definition of one rollup row: the totals over exactly the
      products of category `c`. */
  function CategoryTotal(catalog: seq<Product>, c: string): CategoryData {
    var members := InCategory(catalog, c);
    CategoryData(c, Sum(members, SalesQty), Sum(members, Revenue), |members|)
  }

  /** Position of the first product of category `c`, or `|catalog|` if there is none. */
  function FirstOccurrence(catalog: seq<Product>, c: string): (i: nat)
    ensures i <= |catalog|
    ensures i < |catalog| ==> catalog[i].category == c
    ensures forall j :: 0 <= j < i ==> catalog[j].category != c
    decreases |catalog|
  {
    if |catalog| == 0 then 0
    else if catalog[0].category == c then 0
    else 1 + FirstOccurrence(catalog[1..], c)
  }

  lemma {:induction false} FirstOccurrencePresent(catalog: seq<Product>, c: string)
    ensures c in CategorySet(catalog) <==> FirstOccurrence(catalog, c) < |catalog|
  {
    var i := FirstOccurrence(catalog, c);
    if c in CategorySet(catalog) {
      var p :| p in catalog && p.category == c;
      var j :| 0 <= j < |catalog| && catalog[j] == p;
      assert i <= j;
    }
    if i < |catalog| {
      assert catalog[i] in catalog;
    }
  }

  /** Appending a product does not move the first occurrence of a category already present. */
  lemma FirstOccurrenceSnoc(catalog: seq<Product>, p: Product, c: string)
    ensures FirstOccurrence(catalog + [p], c) ==
      if c in CategorySet(catalog) then FirstOccurrence(catalog, c)
      else if p.category == c then |catalog|
      else |catalog| + 1
  {
    var s := catalog + [p];
    FirstOccurrencePresent(catalog, c);
    var i := FirstOccurrence(catalog, c);
    var i' := FirstOccurrence(s, c);
    assert forall j :: 0 <= j < |catalog| ==> s[j] == catalog[j];
    if c in CategorySet(catalog) {
      assert s[i].category == c;
      assert i' <= i;
      assert i <= i';
    } else {
      assert forall j :: 0 <= j < |catalog| ==> s[j].category != c;
      assert i' >= |catalog|;
      if p.category == c {
        assert s[|catalog|].category == c;
      } else {
        assert s[|catalog|].category != c;
      }
    }
  }

  /** The distinct categories in order of first occurrence: the key order of
      a JS `Map` or `Set` filled from the catalog. */
  function DistinctCategories(catalog: seq<Product>): (r: seq<string>)
    ensures NoDuplicates(r)
    ensures forall c :: c in r <==> c in CategorySet(catalog)
    ensures forall i, j :: 0 <= i < j < |r| ==> FirstOccurrence(catalog, r[i]) < FirstOccurrence(catalog, r[j])
    decreases |catalog|
  {
    if |catalog| == 0 then []
    else
      var n := |catalog| - 1;
      var prior := DistinctCategories(catalog[..n]);
      var c := catalog[n].category;
      var r := if c in prior then prior else prior + [c];
      DistinctCategoriesStep(catalog[..n], catalog[n], prior, r);
      assert catalog == catalog[..n] + [catalog[n]];
      r
  }

  lemma DistinctCategoriesStep(s: seq<Product>, p: Product, prior: seq<string>, r: seq<string>)
    requires NoDuplicates(prior)
    requires forall c :: c in prior <==> c in CategorySet(s)
    requires forall i, j :: 0 <= i < j < |prior| ==> FirstOccurrence(s, prior[i]) < FirstOccurrence(s, prior[j])
    requires r == if p.category in prior then prior else prior + [p.category]
    ensures NoDuplicates(r)
    ensures forall c :: c in r <==> c in CategorySet(s + [p])
    ensures forall i, j :: 0 <= i < j < |r| ==> FirstOccurrence(s + [p], r[i]) < FirstOccurrence(s + [p], r[j])
  {
    assert CategorySet(s + [p]) == CategorySet(s) + {p.category};
    forall i | 0 <= i < |r|
      ensures FirstOccurrence(s + [p], r[i]) == FirstOccurrence(s, r[i]) || (i == |prior| && FirstOccurrence(s + [p], r[i]) == |s|)
      ensures i < |prior| ==> FirstOccurrence(s, r[i]) < |s|
    {
      FirstOccurrenceSnoc(s, p, r[i]);
      FirstOccurrencePresent(s, r[i]);
      if i < |prior| {
        assert r[i] == prior[i];
        assert prior[i] in prior;
      }
    }
  }

  /** Appending a product adds it to exactly its own category. */
  lemma {:induction false} InCategorySnoc(catalog: seq<Product>, p: Product, c: string)
    ensures InCategory(catalog + [p], c) == InCategory(catalog, c) + (if p.category == c then [p] else [])
    decreases |catalog|
  {
    if |catalog| == 0 {
      assert catalog + [p] == [p];
      assert [p][1..] == [];
    } else {
      assert (catalog + [p])[1..] == catalog[1..] + [p];
      InCategorySnoc(catalog[1..], p, c);
    }
  }

  /** Appending a product adds its amounts to its own category's totals only. */
  lemma CategoryTotalSnoc(catalog: seq<Product>, p: Product, c: string)
    ensures CategoryTotal(catalog + [p], c) ==
      if p.category == c then Add(CategoryTotal(catalog, c), p) else CategoryTotal(catalog, c)
  {
    InCategorySnoc(catalog, p, c);
    var members := InCategory(catalog, c);
    if p.category == c {
      SumConcat(members, [p], SalesQty);
      SumConcat(members, [p], Revenue);
      assert Sum([p], SalesQty) == p.salesQty;
      assert Sum([p], Revenue) == p.revenue;
      assert InCategory(catalog + [p], c) == members + [p];
    } else {
      assert members + [] == members;
    }
  }

  /** The update `getCategoryData` applies to an existing row. */
  function Add(g: CategoryData, p: Product): CategoryData {
    CategoryData(g.category, g.salesQty + p.salesQty, g.revenue + p.revenue, g.productCount + 1)
  }

  /** `categoryMap.get(c)` over rows kept in insertion order. */
  function IndexOfCategory(groups: seq<CategoryData>, c: string): (r: Option<nat>)
    ensures r.Some? ==> r.value < |groups| && groups[r.value].category == c
    ensures r.None? ==> forall j :: 0 <= j < |groups| ==> groups[j].category != c
    decreases |groups|
  {
    if |groups| == 0 then None
    else if groups[0].category == c then Some(0)
    else match IndexOfCategory(groups[1..], c)
      case None => None
      case Some(i) => Some(i + 1)
  }

  /** One `forEach` step of `getCategoryData`: update the row of the product's
      category, or append a new row with count 1. */
  function Accumulate(groups: seq<CategoryData>, p: Product): (r: seq<CategoryData>)
    ensures (exists j :: 0 <= j < |groups| && groups[j].category == p.category) ==> |r| == |groups|
    ensures (forall j :: 0 <= j < |groups| ==> groups[j].category != p.category) ==>
      r == groups + [CategoryData(p.category, p.salesQty, p.revenue, 1)]
    ensures Sum(r, GroupSales) == Sum(groups, GroupSales) + p.salesQty
    ensures Sum(r, GroupRevenue) == Sum(groups, GroupRevenue) + p.revenue
    ensures Sum(r, GroupCount) == Sum(groups, GroupCount) + 1
  {
    match IndexOfCategory(groups, p.category)
    case Some(i) =>
      var row := Add(groups[i], p);
      SumUpdate(groups, i, row, GroupSales);
      SumUpdate(groups, i, row, GroupRevenue);
      SumUpdate(groups, i, row, GroupCount);
      groups[i := row]
    case None =>
      var row := CategoryData(p.category, p.salesQty, p.revenue, 1);
      SumConcat(groups, [row], GroupSales);
      SumConcat(groups, [row], GroupRevenue);
      SumConcat(groups, [row], GroupCount);
      groups + [row]
  }

  /** A step keeps every existing row in its place, and leaves the rows of
      other categories as they were. */
  lemma AccumulateKeepsRows(groups: seq<CategoryData>, p: Product)
    ensures forall i :: 0 <= i < |groups| ==> Accumulate(groups, p)[i].category == groups[i].category
    ensures forall i :: 0 <= i < |groups| && groups[i].category != p.category ==> Accumulate(groups, p)[i] == groups[i]
  {
  }

  /** `Array.from(categoryMap.values())` after the `forEach`: one row per
      category in first-occurrence order, each the exact total of its
      products, with nothing lost or double counted. */
  function GroupByCategory(catalog: seq<Product>): (r: seq<CategoryData>)
    ensures |r| == |DistinctCategories(catalog)|
    ensures forall i :: 0 <= i < |r| ==> r[i] == CategoryTotal(catalog, DistinctCategories(catalog)[i])
    ensures Sum(r, GroupSales) == Sum(catalog, SalesQty)
    ensures Sum(r, GroupRevenue) == Sum(catalog, Revenue)
    ensures Sum(r, GroupCount) == |catalog|
    decreases |catalog|
  {
    if |catalog| == 0 then []
    else
      var n := |catalog| - 1;
      var prior := GroupByCategory(catalog[..n]);
      AccumulateStep(catalog[..n], catalog[n], prior);
      AccumulateSums(catalog[..n], catalog[n], prior);
      assert catalog == catalog[..n] + [catalog[n]];
      Accumulate(prior, catalog[n])
  }

  lemma AccumulateStep(s: seq<Product>, p: Product, groups: seq<CategoryData>)
    requires |groups| == |DistinctCategories(s)|
    requires forall i :: 0 <= i < |groups| ==> groups[i] == CategoryTotal(s, DistinctCategories(s)[i])
    ensures |Accumulate(groups, p)| == |DistinctCategories(s + [p])|
    ensures forall i :: 0 <= i < |Accumulate(groups, p)| ==>
      Accumulate(groups, p)[i] == CategoryTotal(s + [p], DistinctCategories(s + [p])[i])
  {
    assert (s + [p])[..|s|] == s;
    match IndexOfCategory(groups, p.category)
    case Some(k) => AccumulateExisting(s, p, groups, k);
    case None => AccumulateNew(s, p, groups);
  }

  lemma AccumulateExisting(s: seq<Product>, p: Product, groups: seq<CategoryData>, k: nat)
    requires |groups| == |DistinctCategories(s)|
    requires forall i :: 0 <= i < |groups| ==> groups[i] == CategoryTotal(s, DistinctCategories(s)[i])
    requires k < |groups| && groups[k].category == p.category
    requires DistinctCategories(s + [p]) ==
      if p.category in DistinctCategories(s) then DistinctCategories(s) else DistinctCategories(s) + [p.category]
    ensures DistinctCategories(s + [p]) == DistinctCategories(s)
    ensures forall i :: 0 <= i < |groups| ==>
      groups[k := Add(groups[k], p)][i] == CategoryTotal(s + [p], DistinctCategories(s)[i])
  {
    var d := DistinctCategories(s);
    assert d[k] == p.category;
    forall i | 0 <= i < |groups|
      ensures groups[k := Add(groups[k], p)][i] == CategoryTotal(s + [p], d[i])
    {
      CategoryTotalSnoc(s, p, d[i]);
      if i != k {
        assert d[i] != d[k];
      }
    }
  }

  lemma AccumulateNew(s: seq<Product>, p: Product, groups: seq<CategoryData>)
    requires |groups| == |DistinctCategories(s)|
    requires forall i :: 0 <= i < |groups| ==> groups[i] == CategoryTotal(s, DistinctCategories(s)[i])
    requires forall j :: 0 <= j < |groups| ==> groups[j].category != p.category
    requires DistinctCategories(s + [p]) ==
      if p.category in DistinctCategories(s) then DistinctCategories(s) else DistinctCategories(s) + [p.category]
    ensures DistinctCategories(s + [p]) == DistinctCategories(s) + [p.category]
    ensures forall i :: 0 <= i <= |groups| ==>
      (groups + [CategoryData(p.category, p.salesQty, p.revenue, 1)])[i] ==
      CategoryTotal(s + [p], (DistinctCategories(s) + [p.category])[i])
  {
    var d := DistinctCategories(s);
    var d' := d + [p.category];
    var g' := groups + [CategoryData(p.category, p.salesQty, p.revenue, 1)];
    NewCategoryUnlisted(d, p.category, groups);
    forall i | 0 <= i <= |groups|
      ensures g'[i] == CategoryTotal(s + [p], d'[i])
    {
      if i == |groups| {
        NewCategoryTotal(s, p);
      } else {
        CategoryTotalSnoc(s, p, d[i]);
        assert d'[i] == d[i] && g'[i] == groups[i];
      }
    }
  }

  lemma {:induction false} NewCategoryUnlisted(d: seq<string>, c: string, groups: seq<CategoryData>)
    requires |groups| == |d|
    requires forall i :: 0 <= i < |groups| ==> groups[i].category == d[i]
    requires forall j :: 0 <= j < |groups| ==> groups[j].category != c
    ensures c !in d
  {
  }

  lemma NewCategoryTotal(s: seq<Product>, p: Product)
    requires p.category !in DistinctCategories(s)
    ensures CategoryTotal(s + [p], p.category) == CategoryData(p.category, p.salesQty, p.revenue, 1)
  {
    CategoryTotalSnoc(s, p, p.category);
    assert InCategory(s, p.category) == [];
  }

  lemma AccumulateSums(s: seq<Product>, p: Product, groups: seq<CategoryData>)
    requires Sum(groups, GroupSales) == Sum(s, SalesQty)
    requires Sum(groups, GroupRevenue) == Sum(s, Revenue)
    requires Sum(groups, GroupCount) == |s|
    ensures Sum(Accumulate(groups, p), GroupSales) == Sum(s + [p], SalesQty)
    ensures Sum(Accumulate(groups, p), GroupRevenue) == Sum(s + [p], Revenue)
    ensures Sum(Accumulate(groups, p), GroupCount) == |s + [p]|
  {
    SumConcat(s, [p], SalesQty);
    SumConcat(s, [p], Revenue);
  }

  /** `getCategoryData`: the rollup sorted by revenue, highest first. */
  function GetCategoryData(catalog: seq<Product>): (r: seq<CategoryData>)
    ensures SortedDesc(r, GroupRevenueKey)
    ensures forall i, j :: 0 <= i < j < |r| && r[i].revenue == r[j].revenue ==>
      FirstOccurrence(catalog, r[i].category) < FirstOccurrence(catalog, r[j].category)
    ensures forall i, j :: 0 <= i < j < |r| ==> r[i].category != r[j].category
    ensures CategoriesOf(r) == CategorySet(catalog)
    ensures forall g :: g in r ==> g == CategoryTotal(catalog, g.category) && g.productCount >= 1
    ensures Sum(r, GroupSales) == Sum(catalog, SalesQty)
    ensures Sum(r, GroupRevenue) == Sum(catalog, Revenue)
    ensures Sum(r, GroupCount) == |catalog|
    ensures |r| == 0 <==> |catalog| == 0
  {
    var groups := GroupByCategory(catalog);
    var r := SortDesc(groups, GroupRevenueKey);
    RollupRows(catalog, groups);
    SortedRollup(catalog, groups, r);
    r
  }

  /** Facts about the unsorted rollup that the sort carries over. */
  lemma {:induction false} RollupRows(catalog: seq<Product>, groups: seq<CategoryData>)
    requires groups == GroupByCategory(catalog)
    ensures forall g :: g in groups ==> g == CategoryTotal(catalog, g.category) && g.productCount >= 1
    ensures forall i, j :: 0 <= i < j < |groups| ==>
      FirstOccurrence(catalog, groups[i].category) < FirstOccurrence(catalog, groups[j].category)
    ensures NoDuplicates(groups)
    ensures CategoriesOf(groups) == CategorySet(catalog)
    ensures |groups| == 0 <==> |catalog| == 0
  {
    RollupRowsAreTotals(catalog, groups);
    RollupRowsOrdered(catalog, groups);
    RollupCategories(catalog, groups);
    if |catalog| > 0 {
      assert catalog[0].category in CategorySet(catalog);
    }
  }

  lemma RollupRowsAreTotals(catalog: seq<Product>, groups: seq<CategoryData>)
    requires groups == GroupByCategory(catalog)
    ensures forall g :: g in groups ==> g == CategoryTotal(catalog, g.category) && g.productCount >= 1
  {
    var d := DistinctCategories(catalog);
    forall i | 0 <= i < |groups|
      ensures groups[i].productCount >= 1
    {
      CategoryTotalPositive(catalog, d[i]);
    }
  }

  lemma {:induction false} RollupRowsOrdered(catalog: seq<Product>, groups: seq<CategoryData>)
    requires groups == GroupByCategory(catalog)
    ensures NoDuplicates(groups)
    ensures forall i, j :: 0 <= i < j < |groups| ==>
      FirstOccurrence(catalog, groups[i].category) < FirstOccurrence(catalog, groups[j].category)
  {
    var d := DistinctCategories(catalog);
    assert forall i :: 0 <= i < |groups| ==> groups[i].category == d[i];
  }

  lemma {:induction false} RollupCategories(catalog: seq<Product>, groups: seq<CategoryData>)
    requires groups == GroupByCategory(catalog)
    ensures CategoriesOf(groups) == CategorySet(catalog)
  {
    var d := DistinctCategories(catalog);
    assert forall i :: 0 <= i < |groups| ==> groups[i].category == d[i];
    forall c | c in CategorySet(catalog)
      ensures c in CategoriesOf(groups)
    {
      assert c in d;
      var i :| 0 <= i < |d| && d[i] == c;
      assert groups[i] in groups;
    }
  }

  lemma {:induction false} CategoryTotalPositive(catalog: seq<Product>, c: string)
    requires c in CategorySet(catalog)
    ensures CategoryTotal(catalog, c).productCount >= 1
  {
    var p :| p in catalog && p.category == c;
    assert p in InCategory(catalog, c);
  }

  lemma SortedRollup(catalog: seq<Product>, groups: seq<CategoryData>, r: seq<CategoryData>)
    requires r == SortDesc(groups, GroupRevenueKey)
    requires forall g :: g in groups ==> g == CategoryTotal(catalog, g.category) && g.productCount >= 1
    requires forall i, j :: 0 <= i < j < |groups| ==>
      FirstOccurrence(catalog, groups[i].category) < FirstOccurrence(catalog, groups[j].category)
    requires NoDuplicates(groups)
    ensures forall g :: g in r ==> g in groups
    ensures forall i, j :: 0 <= i < j < |r| && r[i].revenue == r[j].revenue ==>
      FirstOccurrence(catalog, r[i].category) < FirstOccurrence(catalog, r[j].category)
    ensures forall i, j :: 0 <= i < j < |r| ==> r[i].category != r[j].category
    ensures CategoriesOf(r) == CategoriesOf(groups)
    ensures Sum(r, GroupSales) == Sum(groups, GroupSales)
    ensures Sum(r, GroupRevenue) == Sum(groups, GroupRevenue)
    ensures Sum(r, GroupCount) == Sum(groups, GroupCount)
  {
    assert forall g :: g in r <==> g in groups by {
      forall g
        ensures g in r <==> g in groups
      {
        assert g in r <==> g in multiset(r);
        assert g in groups <==> g in multiset(groups);
      }
    }
    SumPermutation(r, groups, GroupSales);
    SumPermutation(r, groups, GroupRevenue);
    SumPermutation(r, groups, GroupCount);
    var before := (a: CategoryData, b: CategoryData) =>
      FirstOccurrence(catalog, a.category) < FirstOccurrence(catalog, b.category);
    assert TiesOrdered(groups, GroupRevenueKey, before);
    StableKeepsTieOrder(r, groups, GroupRevenueKey, before);
    SubMultisetKeepsNoDuplicates(r, groups);
    forall i, j | 0 <= i < j < |r|
      ensures r[i].category != r[j].category
    {
      assert r[i] in groups && r[j] in groups;
      if r[i].category == r[j].category {
        assert false;
      }
    }
  }

  /** `getStats`. The source divides by `products.length` and reads `[0]` of
      the sorted copies without a guard, so a non-empty catalog is required. */
  function GetStats(catalog: seq<Product>): (r: Stats)
    requires |catalog| > 0
    ensures r.productCount == |catalog|
    ensures r.totalSales == Sum(catalog, SalesQty) && r.totalRevenue == Sum(catalog, Revenue)
    ensures IsMeanOf(r.avgGrowthRate, catalog, GrowthKey)
    ensures IsMeanOf(r.avgRating, catalog, RatingOf)
    ensures exists i :: IsFirstMax(catalog, SalesKey, i) && r.topProduct == catalog[i]
    ensures exists i :: IsFirstMax(catalog, GrowthKey, i) && r.fastestGrowing == catalog[i]
  {
    var growth := Mean(catalog, GrowthKey);
    var rating := Mean(catalog, RatingOf);
    var top := TopByKey(catalog, SalesKey);
    var fastest := TopByKey(catalog, GrowthKey);
    Stats(Sum(catalog, SalesQty), Sum(catalog, Revenue), growth, rating, top, fastest, |catalog|)
  }

  /** `[...products].sort((a, b) => key(b) - key(a))[0]`: the head of the
      stable descending sort, which is the first product of greatest key. */
  function TopByKey(catalog: seq<Product>, key: Product -> real): (p: Product)
    requires |catalog| > 0
    ensures exists i :: IsFirstMax(catalog, key, i) && p == catalog[i]
  {
    SortHeadIsFirstMax(catalog, key);
    SortDesc(catalog, key)[0]
  }

  /** The global totals agree with the category rollup: group-by conserves
      units, revenue and the product count. */
  lemma StatsAgreeWithRollup(catalog: seq<Product>)
    requires |catalog| > 0
    ensures GetStats(catalog).totalSales == Sum(GetCategoryData(catalog), GroupSales)
    ensures GetStats(catalog).totalRevenue == Sum(GetCategoryData(catalog), GroupRevenue)
    ensures GetStats(catalog).productCount == Sum(GetCategoryData(catalog), GroupCount)
  {
  }

  /** Ratings on the 0..5 scale average to a value on that scale. */
  lemma AverageRatingInRange(catalog: seq<Product>)
    requires |catalog| > 0
    requires forall p :: p in catalog ==> 0.0 <= p.rating <= 5.0
    ensures 0.0 <= GetStats(catalog).avgRating <= 5.0
  {
    MeanWithinBounds(catalog, RatingOf, 0.0, 5.0);
  }

  /** The mean growth rate never exceeds the fastest grower's rate. */
  lemma AverageGrowthAtMostFastest(catalog: seq<Product>)
    requires |catalog| > 0
    ensures GetStats(catalog).avgGrowthRate <= GetStats(catalog).fastestGrowing.growthRate
  {
    var st := GetStats(catalog);
    var i :| IsFirstMax(catalog, GrowthKey, i) && st.fastestGrowing == catalog[i];
    var lo := FirstMaxIndex(catalog, NegatedGrowth);
    forall p | p in catalog
      ensures catalog[lo].growthRate <= GrowthKey(p) <= st.fastestGrowing.growthRate
    {
      var j :| 0 <= j < |catalog| && catalog[j] == p;
      assert NegatedGrowth(catalog[j]) <= NegatedGrowth(catalog[lo]);
    }
    MeanWithinBounds(catalog, GrowthKey, catalog[lo].growthRate, st.fastestGrowing.growthRate);
  }

  function NegatedGrowth(p: Product): real { -p.growthRate }
}
