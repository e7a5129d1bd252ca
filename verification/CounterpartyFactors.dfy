/**
 The factors, the score and the limits of a counterparty in terms of its deals
 (backend/src/counterparty-risk/counterparty-risk.service.ts).
 */
module CounterpartyFactors {
  import opened Collections
  import opened Options
  import opened Sums
  import opened OrderedMaps
  import opened Buckets
  import opened Herfindahl
  import opened CounterpartyRisk

  /** y is x rounded to a whole number, to the nearest one. */
  ghost predicate Rounds(x: real, y: int) {
    x - 0.5 < y as real <= x + 0.5
  }

  lemma RoundIs(x: real)
    ensures Rounds(x, Round(x))
  {
  }

  /** The deals still under way. */
  ghost function UnderWay(invs: seq<Investment>): set<nat> {
    set i: nat | i < |invs| && invs[i].status !in {"completed", "cancelled", "refunded"}
  }

  lemma {:induction false} ActiveIs(invs: seq<Investment>)
    ensures ActiveCount(invs) == |UnderWay(invs)|
  {
    if invs == [] {
      assert UnderWay(invs) == {};
    } else {
      var n := |invs| - 1;
      ActiveIs(invs[..n]);
      assert UnderWay(invs) == UnderWay(invs[..n]) + if Done(invs[n].status) then {} else {n as nat};
    }
  }

  /** The fewer deals, the higher the volume factor, in five steps. */
  lemma VolumeFactor(invs: seq<Investment>, total: real)
    ensures ScoreOf(invs, total).factors.volume ==
      if |invs| == 0 then 80 else if |invs| == 1 then 60 else if |invs| in {2, 3} then 40
      else if |invs| in {4, 5, 6, 7} then 20 else 10
  {
    hide Concentration, ExposureScore, ActiveScore, Round;
  }

  /** A hundred, or eighty, times the share of the commonest commodity, or region. */
  lemma ConcentrationFactors(invs: seq<Investment>, total: real) returns (commodity: nat, region: nat)
    requires invs != []
    ensures IsLargest(Commodities(invs), commodity) && IsLargest(Regions(invs), region)
    ensures Rounds(commodity as real / |invs| as real * 100.0, ScoreOf(invs, total).factors.commodity)
    ensures Rounds(region as real / |invs| as real * 80.0, ScoreOf(invs, total).factors.geography)
    ensures ScoreOf(invs, total).recommendsDiversification <==>
            ScoreOf(invs, total).compositeScore > 50 || commodity as real / |invs| as real > 0.5
  {
    hide Largest, Commodities, Regions, ExposureScore, ActiveScore, VolumeScore, Composite, IsLargest, LimitFraction,
        Round;
    commodity, region := Largest(Commodities(invs)), Largest(Regions(invs));
    LargestIs(Commodities(invs));
    LargestIs(Regions(invs));
    RoundIs(Ratio(commodity as real, |invs| as real) * 100.0);
    RoundIs(Ratio(region as real, |invs| as real) * 80.0);
  }

  /** Sixty times the share of deals under way, and two hundred times the share of the portfolio, a hundred at most. */
  lemma ActivityAndExposureFactors(invs: seq<Investment>, total: real)
    ensures invs != [] ==>
      Rounds(|UnderWay(invs)| as real / |invs| as real * 60.0, ScoreOf(invs, total).factors.active)
    ensures total > 0.0 ==>
      var share := Sum(invs, Amount()) / total * 200.0;
      if share >= 100.0 then ScoreOf(invs, total).factors.exposure == 100
      else Rounds(share, ScoreOf(invs, total).factors.exposure)
    ensures !(total > 0.0) ==> ScoreOf(invs, total).factors.exposure == 0
  {
    hide Concentration, VolumeScore, Composite, LimitFraction, ActiveCount, Sum;
    ActiveIs(invs);
    if invs != [] {
      RoundIs(Ratio(ActiveCount(invs) as real, |invs| as real) * 60.0);
    }
    if total > 0.0 {
      RoundIs(Ratio(Sum(invs, Amount()), total) * 200.0);
    }
  }

  /** A counterparty without deals counts as fully concentrated and inactive. */
  lemma NoDeals(total: real)
    ensures var f := ScoreOf([], total).factors; f == Factors(80, 100, 0, 0, 80)
    ensures ScoreOf([], total).compositeScore == 52 && ScoreOf([], total).tier == Medium
  {
    assert Sum([], Amount()) == 0.0;
    if total > 0.0 {
      assert Ratio(0.0, total) == 0.0 by {
        RatioAtLeast(0.0, total, 0.0);
        RatioAtMost(0.0, total, 0.0);
      }
    }
  }

  /** The composite score weighs the factors, and sets the tier and the share of the portfolio that is allowed. */
  lemma ScoreAndLimit(invs: seq<Investment>, total: real)
    ensures var s := ScoreOf(invs, total);
      && Rounds((25 * s.factors.volume + 20 * s.factors.commodity + 25 * s.factors.exposure + 15 * s.factors.active
                 + 15 * s.factors.geography) as real / 100.0, s.compositeScore)
      && (s.compositeScore <= 20 ==> s.tier == Minimal && s.exposureLimitUsd == total * 0.30)
      && (20 < s.compositeScore <= 40 ==> s.tier == Low && s.exposureLimitUsd == total * 0.25)
      && (40 < s.compositeScore <= 60 ==> s.tier == Medium && s.exposureLimitUsd == total * 0.20)
      && (60 < s.compositeScore <= 80 ==> s.tier == High && s.exposureLimitUsd == total * 0.10)
      && (80 < s.compositeScore ==> s.tier == Critical && s.exposureLimitUsd == total * 0.05)
  {
    hide Concentration, ExposureScore, ActiveScore, VolumeScore, Share, Largest;
    var f := FactorsOf(invs, total);
    RoundIs(f.volume as real * 0.25 + f.commodity as real * 0.20 + f.exposure as real * 0.25 + f.active as real * 0.15
            + f.geography as real * 0.15);
  }

  /** Each entry of a portfolio scores exactly the deals of its own counterparty, against the whole portfolio. */
  lemma EntryMeans(invs: seq<Investment>, i: nat)
    requires i < |PortfolioOf(invs).entries|
    ensures var p := PortfolioOf(invs);
            var e := p.entries[i];
            var own := WithKey(invs, DealOf(), e.counterpartyId);
      && own != [] && e.totalExposureUsd == Sum(own, Amount()) && e.score == ScoreOf(own, Sum(invs, Amount()))
      && (Sum(invs, Amount()) > 0.0 ==> e.shareOfPortfolio == Sum(own, Amount()) / Sum(invs, Amount()))
      && (e.breachesLimit <==> e.totalExposureUsd > e.score.exposureLimitUsd)
  {
    hide ScoreOf, Sum, GroupBy, WithKey, Diversification, AlertsOf, SquareSum;
    var groups := GroupBy(invs, DealOf());
    GroupsPartition(invs, DealOf(), groups[i].0);
    GetAt(groups, i);
  }

  /** An alert is raised for exactly the counterparties whose exposure exceeds their own limit. */
  lemma AlertedIff(invs: seq<Investment>, id: string)
    ensures id in PortfolioOf(invs).overdueAlerts <==>
            exists i :: 0 <= i < |PortfolioOf(invs).entries| && OverLimit(PortfolioOf(invs).entries[i], id)
  {
    hide ScoreOf, GroupBy, Diversification, EntryOf;
    var entries := PortfolioOf(invs).entries;
    AlertsAre(entries, id);
    forall i | 0 <= i < |entries|
      ensures entries[i].breachesLimit && entries[i].counterpartyId == id <==> OverLimit(entries[i], id)
    {
      EntryMeans(invs, i);
    }
  }

  ghost predicate OverLimit(e: Entry, id: string) {
    e.counterpartyId == id && e.totalExposureUsd > e.score.exposureLimitUsd
  }
}
