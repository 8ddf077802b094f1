/** The twenty products the application ships with, and what the model
    says about them. */
module SampleCatalog {
  import opened Seqs
  import opened Ranking
  import opened Products
  import opened GrowthPage

  /** `products`, record for record. */
  const Sample: seq<Product> := [
    Product("NP001", "글로우 세럼 2.0", "스킨케어", "2025-01-15", 58000, 15420, 894360000, 45.2, 4.8, 2500),
    Product("NP002", "비타민C 앰플", "스킨케어", "2025-02-01", 42000, 12800, 537600000, 38.5, 4.7, 1800),
    Product("NP003", "매트 립스틱 컬렉션", "메이크업", "2025-01-20", 28000, 18500, 518000000, 52.3, 4.9, 3200),
    Product("NP004", "수분크림 리치", "스킨케어", "2025-02-10", 65000, 9800, 637000000, 28.7, 4.6, 1500),
    Product("NP005", "클린 선크림 SPF50+", "선케어", "2025-03-01", 32000, 22100, 707200000, 65.8, 4.8, 4500),
    Product("NP006", "볼륨 마스카라", "메이크업", "2025-01-25", 24000, 14200, 340800000, 41.2, 4.5, 2800),
    Product("NP007", "딥클렌징 오일", "클렌징", "2025-02-15", 35000, 11500, 402500000, 33.4, 4.7, 2100),
    Product("NP008", "히알루론산 토너", "스킨케어", "2025-03-10", 38000, 16800, 638400000, 48.9, 4.8, 3000),
    Product("NP009", "컬러 컨실러 팔레트", "메이크업", "2025-02-20", 45000, 8900, 400500000, 25.6, 4.4, 1200),
    Product("NP010", "모공 프라이머", "메이크업", "2025-01-30", 29000, 13600, 394400000, 39.8, 4.6, 2400),
    Product("NP011", "레티놀 나이트크림", "스킨케어", "2025-03-05", 72000, 7200, 518400000, 22.1, 4.7, 900),
    Product("NP012", "글리터 아이섀도우", "메이크업", "2025-02-25", 22000, 19800, 435600000, 58.4, 4.8, 3800),
    Product("NP013", "시카 진정 마스크", "마스크팩", "2025-01-10", 3500, 85000, 297500000, 72.3, 4.9, 15000),
    Product("NP014", "AHA/BHA 토닝패드", "스킨케어", "2025-03-15", 28000, 14500, 406000000, 44.7, 4.6, 2600),
    Product("NP015", "듀이 쿠션 파운데이션", "메이크업", "2025-02-05", 48000, 11200, 537600000, 35.2, 4.7, 1900),
    Product("NP016", "티트리 스팟 젤", "스킨케어", "2025-01-05", 18000, 21500, 387000000, 61.8, 4.8, 4200),
    Product("NP017", "립 앤 치크 틴트", "메이크업", "2025-03-20", 19000, 17800, 338200000, 55.3, 4.7, 3500),
    Product("NP018", "펩타이드 아이크림", "스킨케어", "2025-02-28", 55000, 6800, 374000000, 19.4, 4.5, 800),
    Product("NP019", "클렌징 폼 약산성", "클렌징", "2025-01-18", 15000, 28500, 427500000, 68.9, 4.9, 5500),
    Product("NP020", "세팅 스프레이", "메이크업", "2025-03-25", 26000, 10500, 273000000, 31.2, 4.6, 1700)
  ]

  /** The growth rates of the shipped records, position by position. */
  ghost predicate HasSampleGrowthRates(s: seq<Product>) {
    && |s| == 20
    && s[0].growthRate == 45.2
    && s[1].growthRate == 38.5
    && s[2].growthRate == 52.3
    && s[3].growthRate == 28.7
    && s[4].growthRate == 65.8
    && s[5].growthRate == 41.2
    && s[6].growthRate == 33.4
    && s[7].growthRate == 48.9
    && s[8].growthRate == 25.6
    && s[9].growthRate == 39.8
    && s[10].growthRate == 22.1
    && s[11].growthRate == 58.4
    && s[12].growthRate == 72.3
    && s[13].growthRate == 44.7
    && s[14].growthRate == 35.2
    && s[15].growthRate == 61.8
    && s[16].growthRate == 55.3
    && s[17].growthRate == 19.4
    && s[18].growthRate == 68.9
    && s[19].growthRate == 31.2
  }

  /** The units sold of the shipped records, position by position. */
  ghost predicate HasSampleSales(s: seq<Product>) {
    && |s| == 20
    && s[0].salesQty == 15420
    && s[1].salesQty == 12800
    && s[2].salesQty == 18500
    && s[3].salesQty == 9800
    && s[4].salesQty == 22100
    && s[5].salesQty == 14200
    && s[6].salesQty == 11500
    && s[7].salesQty == 16800
    && s[8].salesQty == 8900
    && s[9].salesQty == 13600
    && s[10].salesQty == 7200
    && s[11].salesQty == 19800
    && s[12].salesQty == 85000
    && s[13].salesQty == 14500
    && s[14].salesQty == 11200
    && s[15].salesQty == 21500
    && s[16].salesQty == 17800
    && s[17].salesQty == 6800
    && s[18].salesQty == 28500
    && s[19].salesQty == 10500
  }

  lemma SampleFigures()
    ensures HasSampleGrowthRates(Sample) && HasSampleSales(Sample)
    ensures Sample[12].id == "NP013"
  {
  }

  /** Seven products grow by at least 50%, nine by 30% to 50%, four by less. */
  lemma SampleDistribution()
    ensures GrowthDistribution(Sample)[0].value == 7
    ensures GrowthDistribution(Sample)[1].value == 9
    ensures GrowthDistribution(Sample)[2].value == 4
  {
    SampleFigures();
    HighCount(Sample);
    MediumCount(Sample);
    LowCount(Sample);
  }

  /** Seven of the shipped growth rates are at least 50%. */
  lemma HighCount(s: seq<Product>)
    requires HasSampleGrowthRates(s)
    ensures Count(s, IsHigh) == 7
  {
    assert s[20..] == [];
    assert s[0..] == s;
    CountFive(s, 15, IsHigh);
    CountFive(s, 10, IsHigh);
    CountFive(s, 5, IsHigh);
    CountFive(s, 0, IsHigh);
  }

  /** Nine of the shipped growth rates lie in [30%, 50%). */
  lemma MediumCount(s: seq<Product>)
    requires HasSampleGrowthRates(s)
    ensures Count(s, IsMedium) == 9
  {
    assert s[20..] == [];
    assert s[0..] == s;
    CountFive(s, 15, IsMedium);
    CountFive(s, 10, IsMedium);
    CountFive(s, 5, IsMedium);
    CountFive(s, 0, IsMedium);
  }

  /** Four of the shipped growth rates are below 30%. */
  lemma LowCount(s: seq<Product>)
    requires HasSampleGrowthRates(s)
    ensures Count(s, IsLow) == 4
  {
    assert s[20..] == [];
    assert s[0..] == s;
    CountFive(s, 15, IsLow);
    CountFive(s, 10, IsLow);
    CountFive(s, 5, IsLow);
    CountFive(s, 0, IsLow);
  }

  /** Five steps of a count, from position `k`. */
  lemma {:induction false} CountFive(s: seq<Product>, k: nat, keep: Product -> bool)
    requires k + 5 <= |s|
    ensures Count(s[k..], keep) ==
      (if keep(s[k]) then 1 else 0) + (if keep(s[k + 1]) then 1 else 0) + (if keep(s[k + 2]) then 1 else 0) +
      (if keep(s[k + 3]) then 1 else 0) + (if keep(s[k + 4]) then 1 else 0) + Count(s[k + 5..], keep)
  {
    CountStep(s, k + 4, keep);
    CountStep(s, k + 3, keep);
    CountStep(s, k + 2, keep);
    CountStep(s, k + 1, keep);
    CountStep(s, k, keep);
  }

  /** On the shipped figures, position 12 (NP013) both sold the most units
      and grew the fastest, so `getStats` reports the same record twice. */
  lemma {:induction false} Leaders(s: seq<Product>)
    requires HasSampleSales(s) && HasSampleGrowthRates(s)
    ensures GetStats(s).topProduct == s[12]
    ensures GetStats(s).fastestGrowing == s[12]
  {
    assert IsFirstMax(s, SalesKey, 12);
    assert IsFirstMax(s, GrowthKey, 12);
    var st := GetStats(s);
    var i :| IsFirstMax(s, SalesKey, i) && st.topProduct == s[i];
    FirstMaxUnique(s, SalesKey, i, 12);
    var j :| IsFirstMax(s, GrowthKey, j) && st.fastestGrowing == s[j];
    FirstMaxUnique(s, GrowthKey, j, 12);
  }

  /** On the shipped records themselves, NP013 is both the best seller and
      the fastest grower. */
  lemma LeadersOnSample()
    ensures GetStats(Sample).topProduct.id == "NP013"
    ensures GetStats(Sample).fastestGrowing.id == "NP013"
  {
    SampleFigures();
    Leaders(Sample);
  }
}
