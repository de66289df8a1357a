/** The recommendation rule: a three-way chain over the total investment and
    the number of distinct symbols, first match wins. */
module Advice {
  import opened Holdings
  import opened Valuation
  import opened Symbols

  datatype Recommendation = IncreaseInvestment | LimitedDiversity | WellDiversified

  /** Below this total investment the first rule fires. */
  const MinInvestment: real := 5000.0
  /** Below this many distinct symbols the second rule fires. */
  const MinDistinctSymbols: nat := 3

  /** Rules in priority order: low investment, then low diversity, else well diversified. */
  function Recommend(totalInvestment: real, distinctCount: nat): (r: Recommendation)
    ensures r == IncreaseInvestment <==> totalInvestment < MinInvestment
    ensures r == LimitedDiversity <==> MinInvestment <= totalInvestment && distinctCount < MinDistinctSymbols
    ensures r == WellDiversified <==> MinInvestment <= totalInvestment && MinDistinctSymbols <= distinctCount
  {
    if totalInvestment < MinInvestment then IncreaseInvestment
    else if distinctCount < MinDistinctSymbols then LimitedDiversity
    else WellDiversified
  }

  /** How favourable a recommendation is, from worst to best. */
  function Rank(r: Recommendation): nat
  {
    match r
    case IncreaseInvestment => 0
    case LimitedDiversity => 1
    case WellDiversified => 2
  }

  /** More investment or more distinct symbols never give a worse recommendation. */
  lemma RecommendIsMonotone(t: real, c: nat, t': real, c': nat)
    requires t <= t' && c <= c'
    ensures Rank(Recommend(t, c)) <= Rank(Recommend(t', c'))
  {
  }

  /** The recommendation of a table: shown only when the table is not empty,
      computed from its current total investment and distinct-symbol count. */
  function PortfolioAdvice(p: seq<Holding>): (r: Option<Recommendation>)
    ensures r.None? <==> p == []
    ensures r == Some(IncreaseInvestment) <==> p != [] && TotalInvestment(p) < MinInvestment
    ensures r == Some(LimitedDiversity) <==>
      p != [] && MinInvestment <= TotalInvestment(p) && |Distinct(p)| < MinDistinctSymbols
    ensures r == Some(WellDiversified) <==>
      p != [] && MinInvestment <= TotalInvestment(p) && MinDistinctSymbols <= |Distinct(p)|
  {
    if p == [] then None else Some(Recommend(TotalInvestment(p), |Distinct(p)|))
  }

  /** Adding a row of non-negative value never makes the advice worse. */
  lemma AddNeverWorsensAdvice(p: seq<Holding>, h: Holding)
    requires p != [] && RowTotal(h) >= 0.0
    ensures Rank(PortfolioAdvice(p + [h]).value) >= Rank(PortfolioAdvice(p).value)
  {
    TotalInvestmentAppend(p, h);
    DistinctAppend(p, h);
    RecommendIsMonotone(TotalInvestment(p), |Distinct(p)|, TotalInvestment(p + [h]), |Distinct(p + [h])|);
  }
}
