/** The sales page: the top ten by revenue, the average unit price, its own
    copy of the currency formatter, and the pie colours with a single
    fallback. The copies are modelled as written and proved to agree with the
    dashboard's. */
module SalesPage {
  import opened Seqs
  import opened Ranking
  import opened Products
  import opened Money
  import DashboardPage

  /** This page's `CATEGORY_COLORS`. */
  const CategoryColors: map<string, string> := map[
    "스킨케어" := "#3b82f6",
    "메이크업" := "#ec4899",
    "선케어" := "#f59e0b",
    "클렌징" := "#10b981",
    "마스크팩" := "#8b5cf6"]

  const SliceFallback := "#6366f1"

  /** `topProductsByRevenue`: the ten highest earners, ties in catalog order. */
  function TopProductsByRevenue(catalog: seq<Product>): (r: seq<Product>)
    ensures |r| == if |catalog| <= 10 then |catalog| else 10
    ensures r <= SortDesc(catalog, RevenueKey)
    ensures SortedDesc(r, RevenueKey)
    ensures forall p :: p in r ==> p in catalog
    ensures NoDuplicates(catalog) ==> NoDuplicates(r)
    ensures forall p, q :: p in r && q in multiset(catalog) - multiset(r) ==> q.revenue <= p.revenue
  {
    TopNFromInput(catalog, RevenueKey, 10);
    TopN(catalog, RevenueKey, 10)
  }

  /** This page's `formatCurrency`. */
  function FormatCurrency(num: real): (c: Currency)
    ensures Value(c) == num
    ensures Normalized(c)
  {
    if num >= 100000000.0 then InEok(num / Eok)
    else if num >= 10000.0 then InMan(num / Man)
    else Plain(num)
  }

  /** Both pages pick the same unit for every amount. */
  lemma SameUnitsAsDashboard(num: real)
    ensures FormatCurrency(num) == DashboardPage.FormatCurrency(num)
  {
  }

  /** `Math.round(totalRevenue / totalSales)`. `Math.round` rounds halves up,
      so the result is the integer nearest the quotient, the upper one on a
      tie; in integers, `2R - S < 2rS <= 2R + S`. The source divides without
      a guard, so positive sales are required. */
  function AverageUnitPrice(st: Stats): (r: int)
    requires st.totalSales > 0
    ensures 2 * st.totalRevenue - st.totalSales < 2 * r * st.totalSales <= 2 * st.totalRevenue + st.totalSales
  {
    var s := st.totalSales;
    var q := (2 * st.totalRevenue + s) / (2 * s);
    DivisionBounds(2 * st.totalRevenue + s, 2 * s);
    q
  }

  lemma DivisionBounds(a: int, b: int)
    requires b > 0
    ensures (a / b) * b <= a < (a / b) * b + b
  {
  }

  /** The rounding bounds admit one integer only, so they define the price. */
  lemma AverageUnitPriceUnique(st: Stats, k: int)
    requires st.totalSales > 0
    requires 2 * st.totalRevenue - st.totalSales < 2 * k * st.totalSales <= 2 * st.totalRevenue + st.totalSales
    ensures k == AverageUnitPrice(st)
  {
    var r := AverageUnitPrice(st);
    var s := st.totalSales;
    if k < r {
      StepApart(k, r, s);
      assert false;
    } else if k > r {
      StepApart(r, k, s);
      assert false;
    }
  }

  lemma StepApart(a: int, b: int, s: int)
    requires a < b && s > 0
    ensures 2 * a * s + 2 * s <= 2 * b * s
  {
    var d := b - a;
    AtLeastOnce(d, s);
    assert b * s == a * s + d * s;
  }

  lemma {:induction false} AtLeastOnce(d: int, s: int)
    requires d >= 1 && s > 0
    ensures d * s >= s
    decreases d
  {
    if d > 1 {
      AtLeastOnce(d - 1, s);
      assert d * s == (d - 1) * s + s;
    }
  }

  /** A pie slice's fill: the category's colour, or the one fallback. */
  function SliceColor(category: string): (c: string)
    ensures category in CategoryColors ==> c == CategoryColors[category]
    ensures category !in CategoryColors ==> c == SliceFallback
  {
    if category in CategoryColors then CategoryColors[category] else SliceFallback
  }

  /** Both pages map the same categories to the same colours, and this
      page's slices are coloured as the dashboard's legend is. */
  lemma SameColorsAsDashboard(category: string)
    ensures CategoryColors == DashboardPage.CategoryColors
    ensures SliceColor(category) == DashboardPage.LegendColor(category)
  {
  }
}
