/**
 Counterparty scoring and the portfolio view (backend/src/counterparty-risk/counterparty-risk.service.ts),
 over the reals.
 */
module CounterpartyRisk {
  import opened Collections
  import opened Options
  import opened Sums
  import opened OrderedMaps
  import opened Buckets
  import opened Herfindahl

  /** amountUsd is Number(amount ?? 0). */
  datatype Investment = Investment(
    amountUsd: real, commodity: Option<string>, farmLocation: Option<string>, status: string,
    tradeDealId: Option<string>)

  datatype Tier = Minimal | Low | Medium | High | Critical

  datatype Factors = Factors(volume: int, commodity: int, exposure: int, active: int, geography: int)

  datatype RiskScore = RiskScore(
    compositeScore: int, tier: Tier, factors: Factors, exposureLimitUsd: real, recommendsDiversification: bool)

  datatype Entry = Entry(
    counterpartyId: string, totalExposureUsd: real, shareOfPortfolio: real, score: RiskScore, breachesLimit: bool)

  datatype Portfolio = Portfolio(
    totalPortfolioUsd: real, entries: seq<Entry>, diversificationScore: int, overdueAlerts: seq<string>)

  /** Math.round: halves go up. */
  function Round(x: real): int {
    (x + 0.5).Floor
  }

  function Ratio(a: real, b: real): real
    requires b != 0.0
  {
    a / b
  }

  function Known(name: Option<string>): string {
    if name.Some? then name.value else "unknown"
  }

  function Amount(): Investment -> real {
    (i: Investment) => i.amountUsd
  }

  function DealOf(): Investment -> string {
    (i: Investment) => Known(i.tradeDealId)
  }

  function TierFromScore(score: int): Tier {
    if score <= 20 then Minimal else if score <= 40 then Low else if score <= 60 then Medium
        else if score <= 80 then High else Critical
  }

  function LimitFraction(t: Tier): real {
    match t case Minimal => 0.30 case Low => 0.25 case Medium => 0.20 case High => 0.10 case Critical => 0.05
  }

  // ---- Scoring one counterparty ----

  function Commodities(invs: seq<Investment>): (r: seq<string>)
    ensures |r| == |invs|
  {
    seq(|invs|, i requires 0 <= i < |invs| => Known(invs[i].commodity))
  }

  function Regions(invs: seq<Investment>): (r: seq<string>)
    ensures |r| == |invs|
  {
    seq(|invs|, i requires 0 <= i < |invs| => Known(invs[i].farmLocation))
  }

  /** m labels are alike, and no label occurs more often. */
  ghost predicate IsLargest(labels: seq<string>, m: nat) {
    (exists k :: multiset(labels)[k] == m) && forall k :: multiset(labels)[k] <= m
  }

  function LargestUpTo(labels: seq<string>, n: nat): nat
    requires n <= |labels|
  {
    if n == 0 then 0
    else
      var m := LargestUpTo(labels, n - 1);
      if multiset(labels)[labels[n - 1]] > m then multiset(labels)[labels[n - 1]] else m
  }

  function Largest(labels: seq<string>): nat {
    LargestUpTo(labels, |labels|)
  }

  lemma {:induction false} LargestUpToIs(labels: seq<string>, n: nat)
    requires n <= |labels|
    ensures forall i :: 0 <= i < n ==> multiset(labels)[labels[i]] <= LargestUpTo(labels, n)
    ensures n > 0 ==> exists i :: 0 <= i < n && multiset(labels)[labels[i]] == LargestUpTo(labels, n)
  {
    if n > 0 {
      LargestUpToIs(labels, n - 1);
      assert labels[n - 1] in multiset(labels);
    }
  }

  lemma LargestIs(labels: seq<string>)
    requires labels != []
    ensures IsLargest(labels, Largest(labels)) && 1 <= Largest(labels) <= |labels|
  {
    LargestUpToIs(labels, |labels|);
    forall k ensures multiset(labels)[k] <= Largest(labels) {
      if k in multiset(labels) {
        assert k in labels;
      }
    }
    assert labels[0] in multiset(labels);
    MultiplicityAtMost(labels);
  }

  lemma {:induction false} MultiplicityAtMost(labels: seq<string>)
    ensures forall k :: multiset(labels)[k] <= |labels|
  {
    if labels != [] {
      var n := |labels| - 1;
      MultiplicityAtMost(labels[..n]);
      assert labels == labels[..n] + [labels[n]];
    }
  }

  /** Counting labels in a map, then taking the greatest count. */
  method CountLargest(labels: seq<string>) returns (m: nat)
    requires labels != []
    ensures m == Largest(labels)
  {
    var counts: map<string, nat> := map[];
    for i := 0 to |labels|
      invariant counts.Keys == (set k | k in labels[..i])
      invariant forall k :: k in counts ==> counts[k] == multiset(labels[..i])[k]
    {
      assert labels[..i + 1] == labels[..i] + [labels[i]];
      counts := counts[labels[i] := (if labels[i] in counts then counts[labels[i]] else 0) + 1];
    }
    assert labels[..|labels|] == labels;
    m := 0;
    for i := 0 to |labels|
      invariant m == LargestUpTo(labels, i)
    {
      if counts[labels[i]] > m {
        m := counts[labels[i]];
      }
    }
  }

  predicate Done(status: string) {
    status == "completed" || status == "cancelled" || status == "refunded"
  }

  function ActiveCount(invs: seq<Investment>): (n: nat)
    ensures n <= |invs|
  {
    if invs == [] then 0 else ActiveCount(invs[..|invs| - 1]) + if Done(invs[|invs| - 1].status) then 0 else 1
  }

  function VolumeScore(dealCount: nat): int {
    if dealCount == 0 then 80 else if dealCount == 1 then 60 else if dealCount <= 3 then 40
        else if dealCount <= 7 then 20 else 10
  }

  function Share(part: nat, whole: nat, none: real): real {
    if whole == 0 then none else Ratio(part as real, whole as real)
  }

  function ExposureShare(invs: seq<Investment>, totalPortfolioUsd: real): real {
    if totalPortfolioUsd > 0.0 then Ratio(Sum(invs, Amount()), totalPortfolioUsd) else 0.0
  }

  /** The share of the commonest label, weighted; a counterparty without deals counts as fully concentrated. */
  function Concentration(labels: seq<string>, weight: nat): int {
    Round(Share(Largest(labels), |labels|, 1.0) * weight as real)
  }

  function ExposureScore(invs: seq<Investment>, totalPortfolioUsd: real): int {
    Min(100, Round(ExposureShare(invs, totalPortfolioUsd) * 200.0))
  }

  function ActiveScore(invs: seq<Investment>): int {
    Round(Share(ActiveCount(invs), |invs|, 0.0) * 60.0)
  }

  function FactorsOf(invs: seq<Investment>, totalPortfolioUsd: real): Factors {
    Factors(VolumeScore(|invs|), Concentration(Commodities(invs), 100), ExposureScore(invs, totalPortfolioUsd),
        ActiveScore(invs),
            Concentration(Regions(invs), 80))
  }

  function Composite(f: Factors): int {
    Round(f.volume as real * 0.25 + f.commodity as real * 0.20 + f.exposure as real * 0.25 + f.active as real * 0.15
          + f.geography as real * 0.15)
  }

  function ScoreOf(invs: seq<Investment>, totalPortfolioUsd: real): RiskScore {
    var f := FactorsOf(invs, totalPortfolioUsd);
    var composite := Composite(f);
    var tier := TierFromScore(composite);
    RiskScore(composite, tier, f, totalPortfolioUsd * LimitFraction(tier),
              composite > 50 || Share(Largest(Commodities(invs)), |invs|, 1.0) > 0.5)
  }

  method ComputeScore(invs: seq<Investment>, totalPortfolioUsd: real) returns (score: RiskScore)
    ensures score == ScoreOf(invs, totalPortfolioUsd)
  {
    hide Ratio, ExposureShare, Largest;
    var dealCount := |invs|;
    var maxShare, maxRegionShare := 1.0, 1.0;
    if dealCount > 0 {
      var commodities := CountLargest(Commodities(invs));
      var regions := CountLargest(Regions(invs));
      maxShare := Ratio(commodities as real, dealCount as real);
      maxRegionShare := Ratio(regions as real, dealCount as real);
    }
    var activeCount := 0;
    for i := 0 to |invs|
      invariant activeCount == ActiveCount(invs[..i])
    {
      assert invs[..i + 1][..i] == invs[..i];
      if !Done(invs[i].status) {
        activeCount := activeCount + 1;
      }
    }
    assert invs[..|invs|] == invs;
    var factors := Factors(
      VolumeScore(dealCount),
      Round(maxShare * 100.0),
      ExposureScore(invs, totalPortfolioUsd),
      Round(Share(activeCount, dealCount, 0.0) * 60.0),
      Round(maxRegionShare * 80.0));
    var compositeScore := Composite(factors);
    var tier := TierFromScore(compositeScore);
    score := RiskScore(compositeScore, tier, factors, totalPortfolioUsd * LimitFraction(tier),
        compositeScore > 50 || maxShare > 0.5);
  }

  ghost predicate NonNegativeAmounts(invs: seq<Investment>) {
    forall i :: i in invs ==> i.amountUsd >= 0.0
  }

  lemma RatioTimes(a: real, b: real)
    requires b > 0.0
    ensures Product(Ratio(a, b), b) == a
  {
  }

  lemma ProductOfDifference(a: real, b: real, c: real)
    ensures Product(a - b, c) == Product(a, c) - Product(b, c)
  {
  }

  lemma RatioAtLeast(a: real, b: real, c: real)
    requires b > 0.0 && a >= Product(c, b)
    ensures Ratio(a, b) >= c
  {
    var r := Ratio(a, b);
    RatioTimes(a, b);
    ProductOfDifference(c, r, b);
    if r < c {
      ProductSign(c - r, b);
    }
  }

  lemma RatioAtMost(a: real, b: real, c: real)
    requires b > 0.0 && a <= Product(c, b)
    ensures Ratio(a, b) <= c
  {
    var r := Ratio(a, b);
    RatioTimes(a, b);
    ProductOfDifference(r, c, b);
    if r > c {
      ProductSign(r - c, b);
    }
  }

  lemma ShareBounds(part: nat, whole: nat, none: real)
    requires part <= whole && whole > 0
    ensures 0.0 <= Share(part, whole, none) <= 1.0
    ensures part == whole ==> Share(part, whole, none) == 1.0
    ensures part == 0 ==> Share(part, whole, none) == 0.0
  {
    RatioAtLeast(part as real, whole as real, 0.0);
    RatioAtMost(part as real, whole as real, 1.0);
    if part == whole {
      RatioAtLeast(part as real, whole as real, 1.0);
    }
    if part == 0 {
      RatioAtMost(part as real, whole as real, 0.0);
    }
  }

  ghost predicate FactorsInRange(f: Factors) {
    && 10 <= f.volume <= 80 && 0 <= f.commodity <= 100 && 0 <= f.exposure <= 100 && 0 <= f.active <= 60
       && 0 <= f.geography <= 80
  }

  lemma ConcentrationRange(labels: seq<string>)
    ensures 0 <= Concentration(labels, 100) <= 100 && 0 <= Concentration(labels, 80) <= 80
    ensures |labels| <= 1 ==> Concentration(labels, 100) == 100 && Concentration(labels, 80) == 80
  {
    hide Largest, Ratio;
    if labels != [] {
      LargestIs(labels);
      ShareBounds(Largest(labels), |labels|, 1.0);
    }
  }

  lemma ExposureScoreRange(invs: seq<Investment>, totalPortfolioUsd: real)
    requires NonNegativeAmounts(invs)
    ensures 0 <= ExposureScore(invs, totalPortfolioUsd) <= 100
    ensures invs == [] ==> ExposureScore(invs, totalPortfolioUsd) == 0
  {
    hide Ratio;
    SumNonNegative(invs, Amount());
    if totalPortfolioUsd > 0.0 {
      RatioAtLeast(Sum(invs, Amount()), totalPortfolioUsd, 0.0);
      if invs == [] {
        RatioAtMost(Sum(invs, Amount()), totalPortfolioUsd, 0.0);
      }
    }
  }

  lemma ActiveScoreRange(invs: seq<Investment>)
    ensures 0 <= ActiveScore(invs) <= 60
    ensures |invs| == 1 ==> ActiveScore(invs) == if ActiveCount(invs) == 1 then 60 else 0
    ensures invs == [] ==> ActiveScore(invs) == 0
  {
    hide Ratio, ActiveCount;
    if invs != [] {
      ShareBounds(ActiveCount(invs), |invs|, 0.0);
    }
  }

  lemma FactorRanges(invs: seq<Investment>, totalPortfolioUsd: real)
    requires NonNegativeAmounts(invs)
    ensures var f := FactorsOf(invs, totalPortfolioUsd);
            && FactorsInRange(f) && (invs == [] ==> f.exposure == 0)
            && (|invs| == 1 ==>
               f.commodity == 100 && f.geography == 80 && f.active == if ActiveCount(invs) == 1 then 60 else 0)
  {
    hide Concentration, ExposureScore, ActiveScore, Commodities, Regions, NonNegativeAmounts, ActiveCount;
    ConcentrationRange(Commodities(invs));
    ConcentrationRange(Regions(invs));
    ExposureScoreRange(invs, totalPortfolioUsd);
    ActiveScoreRange(invs);
  }

  /** Scores stay between 0 and 81: the factors cannot all be at their worst together. */
  lemma CompositeInRange(invs: seq<Investment>, totalPortfolioUsd: real)
    requires NonNegativeAmounts(invs)
    ensures 0 <= ScoreOf(invs, totalPortfolioUsd).compositeScore <= 81
  {
    hide Concentration, ExposureScore, ActiveScore, ActiveCount, Commodities, Regions, NonNegativeAmounts,
        LimitFraction, Share;
    FactorRanges(invs, totalPortfolioUsd);
  }

  /**
   The critical tier is only for a counterparty with one deal, still active, worth nearly half the portfolio or more.
   */
  lemma CriticalIff(invs: seq<Investment>, totalPortfolioUsd: real)
    requires NonNegativeAmounts(invs)
    ensures ScoreOf(invs, totalPortfolioUsd).tier == Critical
       <==> |invs| == 1 && ActiveCount(invs) == 1 && ExposureScore(invs, totalPortfolioUsd) >= 98
  {
    hide Concentration, ExposureScore, ActiveScore, ActiveCount, Commodities, Regions, NonNegativeAmounts,
        LimitFraction, Share;
    FactorRanges(invs, totalPortfolioUsd);
  }

  /** One active deal that is the whole portfolio: the highest score there is, and the only critical one. */
  lemma SoleDealScores81(deal: Investment)
    requires deal.amountUsd > 0.0 && !Done(deal.status)
    ensures var score := ScoreOf([deal], deal.amountUsd); score.compositeScore == 81 && score.tier == Critical
  {
    hide Concentration, ActiveScore, Commodities, Regions, LimitFraction, Share, Ratio;
    var invs := [deal];
    assert invs[..0] == [] && ActiveCount(invs) == 1;
    assert invs[1..] == [] && Sum(invs, Amount()) == deal.amountUsd;
    RatioTimes(deal.amountUsd, deal.amountUsd);
    RatioAtLeast(deal.amountUsd, deal.amountUsd, 1.0);
    RatioAtMost(deal.amountUsd, deal.amountUsd, 1.0);
    FactorRanges(invs, deal.amountUsd);
  }

  /** A riskier counterparty never gets a higher exposure limit. */
  lemma LimitsTighten(low: int, high: int, total: real)
    requires low <= high && total >= 0.0
    ensures LimitFraction(TierFromScore(low)) >= LimitFraction(TierFromScore(high))
    ensures Product(total, LimitFraction(TierFromScore(low))) >= Product(total, LimitFraction(TierFromScore(high)))
  {
    var spare := LimitFraction(TierFromScore(low)) - LimitFraction(TierFromScore(high));
    ProductNonNegative(total, spare);
    Distribute(total, LimitFraction(TierFromScore(high)), spare);
  }

  // ---- The portfolio ----

  function EntryOf(group: (string, seq<Investment>), total: real): Entry {
    var score := ScoreOf(group.1, total);
    var exposure := Sum(group.1, Amount());
    Entry(group.0, exposure, if total > 0.0 then Ratio(exposure, total) else 0.0, score,
        exposure > score.exposureLimitUsd)
  }

  function EntriesOf(groups: Groups<string, Investment>, total: real): (r: seq<Entry>)
    ensures |r| == |groups|
    ensures forall i :: 0 <= i < |r| ==> r[i] == EntryOf(groups[i], total)
  {
    if groups == [] then [] else EntriesOf(groups[..|groups| - 1], total) + [EntryOf(groups[|groups| - 1], total)]
  }

  function AlertsOf(entries: seq<Entry>): seq<string> {
    if entries == [] then []
    else
      var last := entries[|entries| - 1];
      AlertsOf(entries[..|entries| - 1]) + if last.breachesLimit then [last.counterpartyId] else []
  }

  function Exposures(entries: seq<Entry>): (r: seq<real>)
    ensures |r| == |entries|
    ensures forall i :: 0 <= i < |r| ==> r[i] == entries[i].totalExposureUsd
  {
    seq(|entries|, i requires 0 <= i < |entries| => entries[i].totalExposureUsd)
  }

  function Shares(entries: seq<Entry>): (r: seq<real>)
    ensures |r| == |entries|
    ensures forall i :: 0 <= i < |r| ==> r[i] == entries[i].shareOfPortfolio
  {
    seq(|entries|, i requires 0 <= i < |entries| => entries[i].shareOfPortfolio)
  }

  /** Before rounding, for two counterparties or more. */
  function Diversification(n: nat, herfindahl: real): real
    requires n >= 2
  {
    assert Ratio(1.0, n as real) < 1.0 by { OneOver(n); }
    Ratio(1.0 - herfindahl, 1.0 - Ratio(1.0, n as real)) * 100.0
  }

  lemma OneOver(n: nat)
    requires n >= 2
    ensures 0.0 < Ratio(1.0, n as real) <= 0.5 && (n as real) * Ratio(1.0, n as real) == 1.0
  {
    RatioTimes(1.0, n as real);
    RatioAtMost(1.0, n as real, 0.5);
    RatioAtLeast(1.0, n as real, 0.0);
  }

  function PortfolioOf(invs: seq<Investment>): Portfolio {
    var total := Sum(invs, Amount());
    var entries := EntriesOf(GroupBy(invs, DealOf()), total);
    Portfolio(total, entries,
        if |entries| <= 1 then 0 else Round(Diversification(|entries|, SquareSum(Shares(entries)))), AlertsOf(entries))
  }

  method EntryFor(dealId: string, deals: seq<Investment>, total: real) returns (entry: Entry)
    ensures entry == EntryOf((dealId, deals), total)
  {
    hide ScoreOf, Ratio;
    var score := ComputeScore(deals, total);
    var exposure := Sum(deals, Amount());
    var share := if total > 0.0 then Ratio(exposure, total) else 0.0;
    entry := Entry(dealId, exposure, share, score, exposure > score.exposureLimitUsd);
  }

  method GroupByDeal(invs: seq<Investment>) returns (byDeal: Groups<string, Investment>)
    ensures byDeal == GroupBy(invs, DealOf())
  {
    hide Put;
    byDeal := [];
    for i := 0 to |invs|
      invariant byDeal == GroupBy(invs[..i], DealOf())
    {
      assert invs[..i + 1][..i] == invs[..i];
      byDeal := Put(byDeal, Known(invs[i].tradeDealId), invs[i]);
    }
    assert invs[..|invs|] == invs;
  }

  method ListEntries(byDeal: Groups<string, Investment>, total: real) returns (entries: seq<Entry>, alerts: seq<string>)
    ensures entries == EntriesOf(byDeal, total) && alerts == AlertsOf(entries)
  {
    hide EntryOf;
    entries, alerts := [], [];
    for g := 0 to |byDeal|
      invariant entries == EntriesOf(byDeal[..g], total) && alerts == AlertsOf(entries)
    {
      assert byDeal[..g + 1][..g] == byDeal[..g];
      var entry := EntryFor(byDeal[g].0, byDeal[g].1, total);
      assert (entries + [entry])[..|entries|] == entries;
      if entry.breachesLimit {
        alerts := alerts + [entry.counterpartyId];
      }
      entries := entries + [entry];
    }
    assert byDeal[..|byDeal|] == byDeal;
  }

  method GetPortfolioView(invs: seq<Investment>) returns (view: Portfolio)
    ensures view == PortfolioOf(invs)
  {
    hide GroupBy, EntriesOf, AlertsOf, Ratio, Round, Diversification, SquareSum, Sum, Shares;
    var total := Sum(invs, Amount());
    var byDeal := GroupByDeal(invs);
    var entries, alerts := ListEntries(byDeal, total);
    var n := |entries|;
    var herfindahl := SquareSum(Shares(entries));
    var diversificationScore := if n <= 1 then 0 else Round(Diversification(n, herfindahl));
    view := Portfolio(total, entries, diversificationScore, alerts);
  }

  // ---- Conservation ----

  lemma {:induction false} ExposuresAddUp(groups: Groups<string, Investment>, total: real)
    ensures SumOf(Exposures(EntriesOf(groups, total))) == Total(groups, Amount())
    decreases |groups|
  {
    hide ScoreOf, Ratio, Sum;
    if groups != [] {
      var n := |groups| - 1;
      ExposuresAddUp(groups[..n], total);
      TotalOfPrefix(groups);
      assert Exposures(EntriesOf(groups, total))[..n] == Exposures(EntriesOf(groups[..n], total));
    }
  }

  lemma {:induction false} TotalOfPrefix(groups: Groups<string, Investment>)
    requires groups != []
    ensures Total(groups, Amount()) == Total(groups[..|groups| - 1], Amount()) + Sum(groups[|groups| - 1].1, Amount())
    decreases |groups|
  {
    if |groups| > 1 {
      TotalOfPrefix(groups[1..]);
      assert groups[..|groups| - 1][1..] == groups[1..][..|groups| - 2];
    }
  }

  /** The entries' exposures sum to the portfolio. */
  lemma ExposureIsConserved(invs: seq<Investment>)
    ensures SumOf(Exposures(PortfolioOf(invs).entries)) == PortfolioOf(invs).totalPortfolioUsd
  {
    GroupTotals(invs, DealOf(), Amount());
    ExposuresAddUp(GroupBy(invs, DealOf()), Sum(invs, Amount()));
  }

  lemma {:induction false} ScaledSum(parts: seq<real>, shares: seq<real>, total: real)
    requires |parts| == |shares| && forall i :: 0 <= i < |parts| ==> Product(shares[i], total) == parts[i]
    ensures Product(SumOf(shares), total) == SumOf(parts)
    decreases |parts|
  {
    if parts != [] {
      hide Product;
      var n := |parts| - 1;
      ScaledSum(parts[..n], shares[..n], total);
      Distribute(total, SumOf(shares[..n]), shares[n]);
    } else {
      TimesZero(total);
    }
  }

  /** A group's share, scaled up, is its exposure. */
  lemma ShareOfGroup(invs: seq<Investment>, i: nat)
    requires NonNegativeAmounts(invs) && Sum(invs, Amount()) > 0.0 && i < |PortfolioOf(invs).entries|
    ensures var e := PortfolioOf(invs).entries[i];
            Product(e.shareOfPortfolio, Sum(invs, Amount())) == e.totalExposureUsd && e.shareOfPortfolio >= 0.0
  {
    hide ScoreOf, Ratio, Product, Round, Diversification, AlertsOf, SquareSum;
    var total := Sum(invs, Amount());
    var group := GroupBy(invs, DealOf())[i];
    assert PortfolioOf(invs).entries[i] == EntryOf(group, total);
    RatioTimes(Sum(group.1, Amount()), total);
    GroupExposure(invs, i);
    ShareNonNegative(Sum(group.1, Amount()), total);
  }

  lemma ShareNonNegative(part: real, total: real)
    requires total > 0.0 && part >= 0.0
    ensures Ratio(part, total) >= 0.0
  {
    RatioAtLeast(part, total, 0.0);
  }

  /** The shares of a portfolio worth something are not negative and sum to one. */
  lemma SharesSumToOne(invs: seq<Investment>)
    requires NonNegativeAmounts(invs) && Sum(invs, Amount()) > 0.0
    ensures var shares := Shares(PortfolioOf(invs).entries); SumOf(shares) == 1.0 && NonNegative(shares)
  {
    hide PortfolioOf, Product;
    var total := Sum(invs, Amount());
    var entries := PortfolioOf(invs).entries;
    ExposureIsConserved(invs);
    TotalOfPortfolio(invs);
    forall i | 0 <= i < |entries|
      ensures Product(Shares(entries)[i], total) == Exposures(entries)[i] && Shares(entries)[i] >= 0.0
    {
      ShareOfGroup(invs, i);
    }
    ScaledSum(Exposures(entries), Shares(entries), total);
    Cancel(SumOf(Shares(entries)), total);
  }

  lemma TotalOfPortfolio(invs: seq<Investment>)
    ensures PortfolioOf(invs).totalPortfolioUsd == Sum(invs, Amount())
  {
  }

  lemma Cancel(x: real, total: real)
    requires total > 0.0 && Product(x, total) == total
    ensures x == 1.0
  {
    ProductOfDifference(x, 1.0, total);
    ProductOfDifference(1.0, x, total);
    if x > 1.0 {
      ProductSign(x - 1.0, total);
    } else if x < 1.0 {
      ProductSign(1.0 - x, total);
    }
  }

  lemma GroupExposure(invs: seq<Investment>, i: nat)
    requires NonNegativeAmounts(invs) && i < |GroupBy(invs, DealOf())|
    ensures Sum(GroupBy(invs, DealOf())[i].1, Amount()) >= 0.0
  {
    var group := GroupBy(invs, DealOf())[i];
    GroupsPartition(invs, DealOf(), group.0);
    GetAt(GroupBy(invs, DealOf()), i);
    forall v | v in group.1 ensures v.amountUsd >= 0.0 {
      WithKeyElements(invs, DealOf(), group.0, v);
    }
    SumNonNegative(group.1, Amount());
  }

  // ---- Diversification ----

  lemma RatioOfOne(u: real, k: real)
    requires k > 0.0 && 0.0 <= u <= k
    ensures 0.0 <= Ratio(u, k) <= 1.0
    ensures Ratio(u, k) == 1.0 <==> u == k
    ensures Ratio(u, k) == 0.0 <==> u == 0.0
  {
    RatioTimes(u, k);
    RatioAtLeast(u, k, 0.0);
    RatioAtMost(u, k, 1.0);
  }

  /** Between 0 and 100; 100 exactly on an even spread, 0 exactly on full concentration. */
  lemma DiversificationMeans(invs: seq<Investment>)
    requires NonNegativeAmounts(invs) && Sum(invs, Amount()) > 0.0 && |PortfolioOf(invs).entries| >= 2
    ensures var shares := Shares(PortfolioOf(invs).entries);
            var raw := Diversification(|shares|, SquareSum(shares));
            && 0.0 <= raw <= 100.0
            && (raw == 100.0 <==> Even(shares, Ratio(1.0, |shares| as real)))
            && (raw == 0.0 <==> exists i :: Concentrated(shares, i))
            && 0 <= PortfolioOf(invs).diversificationScore <= 100
  {
    hide Ratio, PortfolioOf, Even, Concentrated, SquareSum;
    var shares := Shares(PortfolioOf(invs).entries);
    var c := Ratio(1.0, |shares| as real);
    SharesSumToOne(invs);
    OneOver(|shares|);
    EvenIsLeast(shares, c);
    ConcentratedIsGreatest(shares);
    RatioOfOne(1.0 - SquareSum(shares), 1.0 - c);
    ScoreIsRounded(invs);
  }

  lemma ScoreIsRounded(invs: seq<Investment>)
    requires |PortfolioOf(invs).entries| >= 2
    ensures var p := PortfolioOf(invs);
            p.diversificationScore == Round(Diversification(|p.entries|, SquareSum(Shares(p.entries))))
  {
  }

  /** A worthless portfolio has no concentration at all: n over n - 1, as a percentage. */
  lemma WorthlessDiversification(n: nat)
    requires n >= 2
    ensures Round(Diversification(n, 0.0)) > 100 <==> n <= 201
    ensures Round(Diversification(n, 0.0)) >= 100
  {
    var c := Ratio(1.0, n as real);
    var r := Ratio(1.0, 1.0 - c);
    OneOver(n);
    RatioTimes(1.0, 1.0 - c);
    // r == n / (n - 1)
    Rearranged(r, n as real, c);
    Overshoot(r, n);
  }

  lemma Rearranged(r: real, n: real, c: real)
    requires Product(r, 1.0 - c) == 1.0 && n * c == 1.0
    ensures r * (n - 1.0) == n
  {
    assert r * (n - n * c) == Product(r, 1.0 - c) * n;
  }

  lemma Overshoot(r: real, n: nat)
    requires n >= 2 && r * (n as real - 1.0) == n as real
    ensures r * 100.0 >= 100.5 <==> n <= 201
    ensures r >= 1.0
  {
    var m := n as real - 1.0;
    var e := r - 1.0;
    Distribute(m, r, -1.0);
    assert m * e == 1.0;
    if e < 0.005 {
      ProductSign(m, 0.005 - e);
      assert Product(m, 0.005 - e) == 0.005 * m - m * e;
    } else if e > 0.005 {
      ProductSign(m, e - 0.005);
      assert Product(m, e - 0.005) == m * e - 0.005 * m;
    }
  }

  lemma WorthlessShares(invs: seq<Investment>)
    requires !(Sum(invs, Amount()) > 0.0)
    ensures SquareSum(Shares(PortfolioOf(invs).entries)) == 0.0
  {
    hide ScoreOf, Ratio, Round, Diversification, AlertsOf, SquareSum, Sum;
    var shares := Shares(PortfolioOf(invs).entries);
    assert Even(shares, 0.0);
    ZeroSums(shares);
  }

  lemma FewScoreNothing(invs: seq<Investment>)
    requires |PortfolioOf(invs).entries| <= 1
    ensures PortfolioOf(invs).diversificationScore == 0
  {
  }

  /** The score leaves its scale exactly for a worthless portfolio spread over 2 to 201 counterparties. */
  lemma OutOfScaleIff(invs: seq<Investment>)
    requires NonNegativeAmounts(invs)
    ensures var p := PortfolioOf(invs);
            !(0 <= p.diversificationScore <= 100) <==> p.totalPortfolioUsd == 0.0 && 2 <= |p.entries| <= 201
  {
    hide Diversification, PortfolioOf, Sum, Shares, SquareSum, Round, Even, Concentrated;
    var p := PortfolioOf(invs);
    TotalOfPortfolio(invs);
    SumNonNegative(invs, Amount());
    if |p.entries| <= 1 {
      FewScoreNothing(invs);
    } else if p.totalPortfolioUsd > 0.0 {
      DiversificationMeans(invs);
    } else {
      WorthlessShares(invs);
      ScoreIsRounded(invs);
      WorthlessDiversification(|p.entries|);
    }
  }

  function Worthless(deal: string): Investment {
    Investment(0.0, None, None, "active", Some(deal))
  }

  lemma TwoGroups(a: string, b: string)
    requires a != b
    ensures |GroupBy([Worthless(a), Worthless(b)], DealOf())| == 2
  {
    var invs := [Worthless(a), Worthless(b)];
    var none: Groups<string, Investment> := [];
    var one := [(a, [Worthless(a)])];
    assert [Worthless(a)][..0] == [] && GroupBy([Worthless(a)][..0], DealOf()) == none;
    assert DealOf()(Worthless(a)) == a && DealOf()(Worthless(b)) == b;
    assert [] + [Worthless(a)] == [Worthless(a)] && Put(none, a, Worthless(a)) == one;
    assert GroupBy([Worthless(a)], DealOf()) == one;
    assert one[1..] == none && Put(one, b, Worthless(b)) == one + Put(none, b, Worthless(b));
    assert invs[..1] == [Worthless(a)];
  }

  lemma HalfAndHalf()
    ensures Round(Diversification(2, 0.0)) == 200
  {
  }

  /** Two worthless investments in two deals score 200. */
  lemma WorthlessScores200()
    ensures PortfolioOf([Worthless("a"), Worthless("b")]).diversificationScore == 200
  {
    hide ScoreOf, SquareSum, GroupBy, AlertsOf, Round, Diversification;
    var invs := [Worthless("a"), Worthless("b")];
    TwoGroups("a", "b");
    assert invs[1..] == [Worthless("b")] && invs[1..][1..] == [];
    assert Sum(invs, Amount()) == 0.0;
    WorthlessShares(invs);
    ScoreIsRounded(invs);
    HalfAndHalf();
  }

  // ---- Alerts ----

  lemma {:induction false} AlertsAre(entries: seq<Entry>, id: string)
    ensures id in AlertsOf(entries)
      <==> exists i :: 0 <= i < |entries| && entries[i].breachesLimit && entries[i].counterpartyId == id
  {
    if entries != [] {
      var n := |entries| - 1;
      AlertsAre(entries[..n], id);
      if i :| 0 <= i < |entries| && entries[i].breachesLimit && entries[i].counterpartyId == id {
        assert i < n ==> entries[..n][i] == entries[i];
      }
      if i :| 0 <= i < n && entries[..n][i].breachesLimit && entries[..n][i].counterpartyId == id {
        assert entries[i] == entries[..n][i];
      }
    }
  }

  /** Some part is at least an even share of the whole. */
  lemma {:induction false} SomeIsLarge(xs: seq<real>, c: real) returns (i: nat)
    requires xs != [] && SumOf(xs) >= c * |xs| as real
    ensures i < |xs| && xs[i] >= c
    decreases |xs|
  {
    var n := |xs| - 1;
    if xs[n] >= c || n == 0 {
      assert n == 0 ==> SumOf(xs[..0]) == 0.0;
      i := n;
    } else {
      Distribute(c, n as real, 1.0);
      i := SomeIsLarge(xs[..n], c);
    }
  }

  lemma UpToThree(total: real, n: nat)
    requires total > 0.0 && n <= 3
    ensures total / 3.0 * n as real <= total
  {
    ProductNonNegative(total / 3.0, 3.0 - n as real);
    assert Product(total / 3.0, 3.0 - n as real) == total - total / 3.0 * n as real;
  }

  lemma LimitAtMost(invs: seq<Investment>, total: real)
    requires total > 0.0
    ensures ScoreOf(invs, total).exposureLimitUsd <= 0.30 * total
  {
    hide FactorsOf, Composite;
  }

  lemma AThirdBreaches(group: (string, seq<Investment>), total: real)
    requires total > 0.0 && EntryOf(group, total).totalExposureUsd >= total / 3.0
    ensures EntryOf(group, total).breachesLimit
  {
    hide ScoreOf, Ratio, Sum;
    LimitAtMost(group.1, total);
  }

  lemma EntryAt(invs: seq<Investment>, i: nat)
    requires i < |PortfolioOf(invs).entries|
    ensures i < |GroupBy(invs, DealOf())|
    ensures PortfolioOf(invs).entries[i] == EntryOf(GroupBy(invs, DealOf())[i], PortfolioOf(invs).totalPortfolioUsd)
    ensures PortfolioOf(invs).overdueAlerts == AlertsOf(PortfolioOf(invs).entries)
  {
  }

  /** A portfolio of up to three counterparties worth something always raises an alert. */
  lemma FewAlwaysBreach(invs: seq<Investment>)
    requires Sum(invs, Amount()) > 0.0 && |PortfolioOf(invs).entries| <= 3
    ensures PortfolioOf(invs).overdueAlerts != []
  {
    hide PortfolioOf, EntryOf, AlertsOf, Sum;
    var p := PortfolioOf(invs);
    ExposureIsConserved(invs);
    TotalOfPortfolio(invs);
    var third := p.totalPortfolioUsd / 3.0;
    UpToThree(p.totalPortfolioUsd, |p.entries|);
    SomethingListed(Exposures(p.entries));
    var i := SomeIsLarge(Exposures(p.entries), third);
    EntryAt(invs, i);
    AThirdBreaches(GroupBy(invs, DealOf())[i], p.totalPortfolioUsd);
    AlertsAre(p.entries, p.entries[i].counterpartyId);
  }

  lemma SomethingListed(xs: seq<real>)
    requires SumOf(xs) > 0.0
    ensures xs != []
  {
  }
}
