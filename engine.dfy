/** The session's portfolio: the table the script keeps across reruns, with
    the add form, the remove form and the risk-assessment loop over it. */
module Engine {
  import opened Holdings
  import opened Valuation
  import opened Symbols
  import opened Advice
  import opened Risk

  /** What the add form reports back. */
  datatype AddOutcome = Added | InvalidInput | QuoteUnavailable

  class Portfolio {
    /** The rows of the table, oldest first. */
    var holdings: seq<Holding>

    /** Every row got past the add guard. */
    ghost predicate Valid()
      reads this
    {
      AllWellFormed(holdings)
    }

    /** A new session starts with an empty table. */
    constructor ()
      ensures Valid()
      ensures holdings == []
    {
      holdings := [];
    }

    /** The add form: reject an empty symbol or a non-positive quantity,
        then reject when no price was obtained, else append exactly one row
        carrying the fetched price. `price` is the outcome of the price
        lookup and `dateAdded` the timestamp, both supplied by the caller. */
    method Add(symbol: string, quantity: int, price: Option<real>, dateAdded: string) returns (outcome: AddOutcome)
      requires Valid()
      modifies this
      ensures Valid()
      ensures outcome == InvalidInput <==> symbol == "" || quantity <= 0
      ensures outcome == QuoteUnavailable <==> symbol != "" && quantity > 0 && price.None?
      ensures outcome == Added <==> symbol != "" && quantity > 0 && price.Some?
      ensures outcome == Added ==> holdings == old(holdings) + [Holding(symbol, quantity, price.value, dateAdded)]
      ensures outcome != Added ==> holdings == old(holdings)
    {
      if symbol != "" && quantity > 0 {
        if price.Some? {
          holdings := holdings + [Holding(symbol, quantity, price.value, dateAdded)];
          outcome := Added;
        } else {
          outcome := QuoteUnavailable;
        }
      } else {
        outcome := InvalidInput;
      }
    }

    /** The remove form: drop every row of the chosen symbol. An empty choice
        (the menu of an empty table) does nothing, which is what the mask
        would do anyway since no row has an empty symbol. */
    method Remove(symbol: string)
      requires Valid()
      modifies this
      ensures Valid()
      ensures holdings == WithoutSymbol(old(holdings), symbol)
    {
      if symbol != "" {
        holdings := WithoutSymbol(holdings, symbol);
      } else {
        WithoutAbsentSymbol(holdings, symbol);
      }
    }

    /** The risk-assessment loop: visit the distinct symbols in first-seen
        order, look up each one's history and report its volatility and risk
        level when the history has data. */
    method RiskReport(fetch: string -> Option<seq<real>>, volatility: seq<real> -> real) returns (report: seq<RiskEntry>)
      ensures report == Report(Distinct(holdings), fetch, volatility)
    {
      var symbols := Distinct(holdings);
      report := [];
      var i := 0;
      while i < |symbols|
        invariant 0 <= i <= |symbols|
        invariant report == Report(symbols[..i], fetch, volatility)
      {
        var symbol := symbols[i];
        var history := fetch(symbol);
        assert symbols[..i + 1][..i] == symbols[..i];
        if history.Some? && |history.value| > 0 {
          var v := volatility(history.value);
          report := report + [RiskEntry(symbol, v, Classify(v))];
        }
        i := i + 1;
      }
      assert symbols[..i] == symbols;
    }
  }

  /** Two purchases, then removal of one symbol. */
  lemma TwoPurchasesThenRemove()
    ensures var aapl := Holding("AAPL", 10, 150.0, "t1");
            var googl := Holding("GOOGL", 5, 100.0, "t2");
            && TotalInvestment([aapl]) == 1500.0 && TotalStocks([aapl]) == 10
            && TotalInvestment([aapl, googl]) == 2000.0 && TotalStocks([aapl, googl]) == 15
            && Distinct([aapl, googl]) == ["AAPL", "GOOGL"]
            && PortfolioAdvice([aapl, googl]) == Some(IncreaseInvestment)
            && WithoutSymbol([aapl, googl], "AAPL") == [googl]
            && TotalInvestment([googl]) == 500.0 && TotalStocks([googl]) == 5
  {
    var aapl := Holding("AAPL", 10, 150.0, "t1");
    var googl := Holding("GOOGL", 5, 100.0, "t2");
    assert [aapl, googl] == [aapl] + [googl];
    assert [aapl, googl][..1] == [aapl];
    assert [aapl][..0] == [] && [googl][..0] == [];
    TotalInvestmentAppend([], aapl);
    TotalInvestmentAppend([], googl);
    TotalInvestmentAppend([aapl], googl);
    assert "AAPL" != "GOOGL";
    DistinctAppend([aapl], googl);
  }
}
