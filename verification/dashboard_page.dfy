/** The dashboard page: the top ten by units sold, the category selector's
    list, the currency formatter, and the colours of the category pie and its
    legend. The page also keeps a selected category and a sort key in
    component state. Only the two `<select>` elements read them, as their
    own `value`; nothing derived depends on them, and `ViewIgnoresState`
    says so. */
module DashboardPage {
  import opened Seqs
  import opened Ranking
  import opened Products
  import opened Money

  /** `COLORS`: the fallback palette of the pie. */
  const Palette: seq<string> := ["#6366f1", "#8b5cf6", "#a855f7", "#d946ef", "#ec4899", "#f43f5e"]

  /** `CATEGORY_COLORS`. */
  const CategoryColors: map<string, string> := map[
    "스킨케어" := "#3b82f6",
    "메이크업" := "#ec4899",
    "선케어" := "#f59e0b",
    "클렌징" := "#10b981",
    "마스크팩" := "#8b5cf6"]

  /** The legend's fallback colour. */
  const LegendFallback := "#6366f1"

  /** `top10Products`: the ten best sellers by units, ties in catalog order. */
  function Top10Products(catalog: seq<Product>): (r: seq<Product>)
    ensures |r| == if |catalog| <= 10 then |catalog| else 10
    ensures r <= SortDesc(catalog, SalesKey)
    ensures SortedDesc(r, SalesKey)
    ensures forall p :: p in r ==> p in catalog
    ensures NoDuplicates(catalog) ==> NoDuplicates(r)
    ensures forall p, q :: p in r && q in multiset(catalog) - multiset(r) ==> q.salesQty <= p.salesQty
  {
    TopNFromInput(catalog, SalesKey, 10);
    TopN(catalog, SalesKey, 10)
  }

  /** `categories`: the `'ALL'` sentinel, then each category of the catalog
      once, in the order of its first product. */
  function Categories(catalog: seq<Product>): (r: seq<string>)
    ensures |r| >= 1 && r[0] == "ALL"
    ensures NoDuplicates(r[1..])
    ensures forall c :: c in r[1..] <==> c in CategorySet(catalog)
    ensures forall i, j :: 1 <= i < j < |r| ==> FirstOccurrence(catalog, r[i]) < FirstOccurrence(catalog, r[j])
  {
    var d := DistinctCategories(catalog);
    assert (["ALL"] + d)[1..] == d;
    ["ALL"] + d
  }

  /** `formatCurrency`: the unit is 억 from 10^8 up, 만 from 10^4 up, and
      none below; the chosen form keeps the amount. */
  function FormatCurrency(num: real): (c: Currency)
    ensures c.InEok? <==> num >= 100000000.0
    ensures c.InMan? <==> 10000.0 <= num < 100000000.0
    ensures c.Plain? <==> num < 10000.0
    ensures Value(c) == num
    ensures Normalized(c)
  {
    if num >= 100000000.0 then InEok(num / Eok)
    else if num >= 10000.0 then InMan(num / Man)
    else Plain(num)
  }

  /** In the model, formatting is a bijection between amounts and
      normalised forms (the page's `toFixed` rounding is left out). */
  lemma FormatCurrencyInverse(c: Currency)
    requires Normalized(c)
    ensures FormatCurrency(Value(c)) == c
  {
    match c
    case InEok(e) =>
      assert Value(c) / Eok == e;
    case InMan(m) =>
      assert Value(c) / Man == m;
    case Plain(w) =>
  }

  /** The fill of the pie slice at `index`: the category's own colour when
      it has one, otherwise the palette colour at `index mod 6`. */
  function PieSliceColor(category: string, index: nat): (c: string)
    ensures category in CategoryColors ==> c == CategoryColors[category]
    ensures category !in CategoryColors ==> c == Palette[index % |Palette|]
    ensures c in Palette || c in CategoryColors.Values
  {
    if category in CategoryColors then CategoryColors[category] else Palette[index % |Palette|]
  }

  /** The dot next to a legend entry: the category's own colour, or the
      first palette colour. */
  function LegendColor(category: string): (c: string)
    ensures category in CategoryColors ==> c == CategoryColors[category]
    ensures category !in CategoryColors ==> c == Palette[0]
  {
    if category in CategoryColors then CategoryColors[category] else LegendFallback
  }

  /** The legend matches the pie exactly for mapped categories and for
      unmapped ones that fall on a multiple of the palette length. */
  lemma LegendMatchesSlice(category: string, index: nat)
    ensures LegendColor(category) == PieSliceColor(category, index)
      <==> category in CategoryColors || index % |Palette| == 0
  {
    if category !in CategoryColors && index % |Palette| != 0 {
      var k := index % |Palette|;
      assert Palette[k] != Palette[0] by {
        assert 1 <= k < 6;
        if k == 1 {} else if k == 2 {} else if k == 3 {} else if k == 4 {} else {}
      }
    }
  }

  /** A category outside the colour map, placed second in the rollup, gets
      a legend dot of another colour than its slice. */
  lemma LegendMismatchWitness()
    ensures "바디케어" !in CategoryColors
    ensures LegendColor("바디케어") != PieSliceColor("바디케어", 1)
  {
  }

  /** The legend dot the pie's colouring calls for: mapped categories keep
      their colour, unmapped ones take the palette colour of their slice. */
  function MatchedLegendColor(category: string, index: nat): (c: string)
    ensures c == PieSliceColor(category, index)
    ensures c == LegendColor(category) <==> category in CategoryColors || index % |Palette| == 0
  {
    LegendMatchesSlice(category, index);
    if category in CategoryColors then CategoryColors[category] else Palette[index % |Palette|]
  }

  /** The dropdown choices of the page. */
  datatype SortKey = BySalesQty | ByRevenue | ByGrowthRate

  /** The component state behind the two dropdowns. */
  datatype State = State(selectedCategory: string, sortBy: SortKey)

  const InitialState := State("ALL", BySalesQty)

  function SelectCategory(st: State, category: string): (r: State)
    ensures r.selectedCategory == category && r.sortBy == st.sortBy
  {
    st.(selectedCategory := category)
  }

  function SelectSort(st: State, key: SortKey): (r: State)
    ensures r.sortBy == key && r.selectedCategory == st.selectedCategory
  {
    st.(sortBy := key)
  }

  /** What the page derives from the catalog for its top-ten table, category
      selector and pie: `stats` is not part of it, because `GetStats` needs a
      non-empty catalog. */
  datatype View = View(
    top10: seq<Product>,
    categoryData: seq<CategoryData>,
    categories: seq<string>,
    sliceColors: seq<string>,
    legendColors: seq<string>)

  /** The page as written: the pie draws `PieSliceColor` and the legend
      `LegendColor` for each rollup row. Both colour lists run along the
      rollup, and the selector lists one entry per rollup row after `'ALL'`. */
  function DashboardView(catalog: seq<Product>, st: State): (v: View)
    ensures |v.sliceColors| == |v.categoryData| && |v.legendColors| == |v.categoryData|
    ensures |v.categories| == |v.categoryData| + 1 && v.categories[0] == "ALL"
  {
    var data := GetCategoryData(catalog);
    RollupMatchesSelector(catalog);
    View(
      Top10Products(catalog),
      data,
      Categories(catalog),
      seq(|data|, i requires 0 <= i < |data| => PieSliceColor(data[i].category, i)),
      seq(|data|, i requires 0 <= i < |data| => LegendColor(data[i].category)))
  }

  /** On the page as written, a legend dot matches its slice exactly when
      the row's category is mapped or its index is a multiple of the palette
      length. */
  lemma {:induction false} ViewLegendAgainstPie(catalog: seq<Product>, st: State)
    ensures var v := DashboardView(catalog, st);
      forall i :: 0 <= i < |v.legendColors| ==>
        (v.legendColors[i] == v.sliceColors[i] <==> v.categoryData[i].category in CategoryColors || i % |Palette| == 0)
  {
    var v := DashboardView(catalog, st);
    forall i | 0 <= i < |v.legendColors|
      ensures v.legendColors[i] == v.sliceColors[i] <==> v.categoryData[i].category in CategoryColors || i % |Palette| == 0
    {
      LegendMatchesSlice(v.categoryData[i].category, i);
    }
  }

  /** The rollup has one row per entry of the category selector. */
  lemma RollupMatchesSelector(catalog: seq<Product>)
    ensures |GetCategoryData(catalog)| == |DistinctCategories(catalog)|
  {
    var groups := GroupByCategory(catalog);
    assert |multiset(SortDesc(groups, GroupRevenueKey))| == |multiset(groups)|;
  }

  /** With the corrected legend, `MatchedLegendColor` at each index, every
      dot matches the slice the page draws for that row. */
  lemma LegendFollowsPie(catalog: seq<Product>, st: State)
    ensures forall i :: 0 <= i < |DashboardView(catalog, st).categoryData| ==>
      MatchedLegendColor(DashboardView(catalog, st).categoryData[i].category, i) == DashboardView(catalog, st).sliceColors[i]
  {
  }

  /** Choosing a category or a sort key changes nothing the page derives:
      the choice shows only in the dropdown that made it. */
  lemma ViewIgnoresState(catalog: seq<Product>, st: State, category: string, key: SortKey)
    ensures DashboardView(catalog, SelectCategory(st, category)) == DashboardView(catalog, st)
    ensures DashboardView(catalog, SelectSort(st, key)) == DashboardView(catalog, st)
    ensures DashboardView(catalog, st).top10 == DashboardView(catalog, InitialState).top10
  {
  }
}
