/** The growth page: the catalog ranked by growth rate, its top ten, the
    three-bucket distribution chart, and the colour and status label of each
    table row. The page encodes the buckets three times (the `filter`
    predicates of the chart, `getGrowthColor`, and the label ternary); the
    lemmas here show the three agree. */
module GrowthPage {
  import opened Seqs
  import opened Ranking
  import opened Products

  const HighColor := "#10b981"
  const MediumColor := "#f59e0b"
  const LowColor := "#64748b"

  const HighLabel := "고성장"
  const MediumLabel := "중성장"
  const LowLabel := "저성장"

  /** `productsByGrowth`: the whole catalog, fastest growing first, equal
      rates in catalog order. */
  function ProductsByGrowth(catalog: seq<Product>): (r: seq<Product>)
    ensures multiset(r) == multiset(catalog)
    ensures SortedDesc(r, GrowthKey)
    ensures Stable(r, catalog, GrowthKey)
  {
    SortDesc(catalog, GrowthKey)
  }

  /** `topGrowthProducts`: the first ten of the ranking. */
  function TopGrowthProducts(catalog: seq<Product>): (r: seq<Product>)
    ensures |r| == if |catalog| <= 10 then |catalog| else 10
    ensures r <= ProductsByGrowth(catalog)
    ensures forall p :: p in r ==> p in catalog
    ensures forall p, q :: p in r && q in multiset(catalog) - multiset(r) ==> q.growthRate <= p.growthRate
  {
    TopNFromInput(catalog, GrowthKey, 10);
    TopN(catalog, GrowthKey, 10)
  }

  /** On a non-empty catalog the ranking starts with the record `getStats`
      reports as fastest growing: both take the head of the same stable sort. */
  lemma RankingStartsWithFastest(catalog: seq<Product>)
    requires |catalog| > 0
    ensures ProductsByGrowth(catalog)[0] == GetStats(catalog).fastestGrowing
    ensures TopGrowthProducts(catalog)[0] == GetStats(catalog).fastestGrowing
  {
  }

  // The three `filter` predicates of `growthDistribution`.

  predicate IsHigh(p: Product) { p.growthRate >= 50.0 }
  predicate IsMedium(p: Product) { p.growthRate >= 30.0 && p.growthRate < 50.0 }
  predicate IsLow(p: Product) { p.growthRate < 30.0 }

  /** `getGrowthColor`. */
  function GrowthColor(rate: real): (c: string)
    ensures c == HighColor <==> rate >= 50.0
    ensures c == MediumColor <==> 30.0 <= rate < 50.0
    ensures c == LowColor <==> rate < 30.0
  {
    if rate >= 50.0 then HighColor
    else if rate >= 30.0 then MediumColor
    else LowColor
  }

  /** The status badge of a table row. */
  function StatusLabel(rate: real): (l: string)
    ensures l == HighLabel <==> rate >= 50.0
    ensures l == MediumLabel <==> 30.0 <= rate < 50.0
    ensures l == LowLabel <==> rate < 30.0
  {
    if rate >= 50.0 then HighLabel else if rate >= 30.0 then MediumLabel else LowLabel
  }

  /** A row's badge names the bucket whose colour the row is drawn in, and
      the chart counts the product in that same bucket. */
  lemma EncodingsAgree(p: Product)
    ensures IsHigh(p) <==> GrowthColor(p.growthRate) == HighColor
    ensures IsMedium(p) <==> GrowthColor(p.growthRate) == MediumColor
    ensures IsLow(p) <==> GrowthColor(p.growthRate) == LowColor
    ensures GrowthColor(p.growthRate) == HighColor <==> StatusLabel(p.growthRate) == HighLabel
    ensures GrowthColor(p.growthRate) == MediumColor <==> StatusLabel(p.growthRate) == MediumLabel
    ensures GrowthColor(p.growthRate) == LowColor <==> StatusLabel(p.growthRate) == LowLabel
  {
  }

  /** Every product satisfies exactly one of the three chart predicates. */
  lemma ExactlyOneBucket(p: Product)
    ensures (IsHigh(p) && !IsMedium(p) && !IsLow(p))
         || (!IsHigh(p) && IsMedium(p) && !IsLow(p))
         || (!IsHigh(p) && !IsMedium(p) && IsLow(p))
  {
  }

  /** One entry of the distribution chart. */
  datatype Slice = Slice(name: string, value: nat, color: string)

  /** Number of products the table would draw in `color`. */
  function ColoredCount(catalog: seq<Product>, color: string): nat {
    Count(catalog, (p: Product) => GrowthColor(p.growthRate) == color)
  }

  /** `growthDistribution`: high, medium and low counts with their colours.
      The three counts partition the catalog, and each is the number of
      products painted in the slice's colour, which is also the number of
      rows of the table (drawn from `productsByGrowth`) in that colour. */
  function GrowthDistribution(catalog: seq<Product>): (r: seq<Slice>)
    ensures |r| == 3
    ensures r[0].color == HighColor && r[1].color == MediumColor && r[2].color == LowColor
    ensures r[0].value + r[1].value + r[2].value == |catalog|
    ensures forall i :: 0 <= i < |r| ==> r[i].value == ColoredCount(catalog, r[i].color)
    ensures forall i :: 0 <= i < |r| ==> r[i].value == ColoredCount(ProductsByGrowth(catalog), r[i].color)
  {
    var high := Count(catalog, IsHigh);
    var medium := Count(catalog, IsMedium);
    var low := Count(catalog, IsLow);
    DistributionCounts(catalog);
    TableColorCounts(catalog, HighColor);
    TableColorCounts(catalog, MediumColor);
    TableColorCounts(catalog, LowColor);
    [ Slice("고성장 (50%+)", high, HighColor),
      Slice("중성장 (30-50%)", medium, MediumColor),
      Slice("저성장 (<30%)", low, LowColor) ]
  }

  /** The table lists every product once, so it has as many rows of each
      colour as the catalog has products of that colour. */
  lemma TableColorCounts(catalog: seq<Product>, color: string)
    ensures ColoredCount(ProductsByGrowth(catalog), color) == ColoredCount(catalog, color)
  {
    CountPermutation(ProductsByGrowth(catalog), catalog, (p: Product) => GrowthColor(p.growthRate) == color);
  }

  lemma {:induction false} DistributionCounts(catalog: seq<Product>)
    ensures Count(catalog, IsHigh) + Count(catalog, IsMedium) + Count(catalog, IsLow) == |catalog|
    ensures Count(catalog, IsHigh) == ColoredCount(catalog, HighColor)
    ensures Count(catalog, IsMedium) == ColoredCount(catalog, MediumColor)
    ensures Count(catalog, IsLow) == ColoredCount(catalog, LowColor)
  {
    forall p | p in catalog
      ensures (IsHigh(p) && !IsMedium(p) && !IsLow(p))
           || (!IsHigh(p) && IsMedium(p) && !IsLow(p))
           || (!IsHigh(p) && !IsMedium(p) && IsLow(p))
    {
      ExactlyOneBucket(p);
    }
    CountPartition(catalog, IsHigh, IsMedium, IsLow);
    CountPointwise(catalog, IsHigh, (p: Product) => GrowthColor(p.growthRate) == HighColor);
    CountPointwise(catalog, IsMedium, (p: Product) => GrowthColor(p.growthRate) == MediumColor);
    CountPointwise(catalog, IsLow, (p: Product) => GrowthColor(p.growthRate) == LowColor);
  }
}
