/** Valuation of the table from the prices stored at add time (no fresh
    quote): the derived "Total Value" column and the two aggregate metrics. */
module Valuation {
  import opened Holdings

  /** Quantity times the stored price: the value of one row. */
  function RowTotal(h: Holding): real
  {
    h.quantity as real * h.price
  }

  /** The "Total Value" column, one entry per row and in row order. */
  function TotalValueColumn(p: seq<Holding>): (c: seq<real>)
    ensures |c| == |p|
    ensures forall i :: 0 <= i < |p| ==> c[i] == RowTotal(p[i])
  {
    seq(|p|, i requires 0 <= i < |p| => RowTotal(p[i]))
  }

  /** Sum of a column; zero for an empty one. */
  function Sum(xs: seq<real>): real
  {
    if xs == [] then 0.0 else Sum(xs[..|xs| - 1]) + xs[|xs| - 1]
  }

  /** The "Total Investment" metric: the sum of the "Total Value" column. */
  function TotalInvestment(p: seq<Holding>): real
  {
    Sum(TotalValueColumn(p))
  }

  /** The "Total Stocks Held" metric: the sum of the Quantity column. */
  function TotalStocks(p: seq<Holding>): int
  {
    if p == [] then 0 else TotalStocks(p[..|p| - 1]) + p[|p| - 1].quantity
  }

  lemma {:induction false} SumConcat(xs: seq<real>, ys: seq<real>)
    ensures Sum(xs + ys) == Sum(xs) + Sum(ys)
    decreases |ys|
  {
    if ys == [] {
      assert xs + ys == xs;
    } else {
      var ys' := ys[..|ys| - 1];
      assert (xs + ys)[..|xs + ys| - 1] == xs + ys';
      SumConcat(xs, ys');
    }
  }

  lemma ColumnConcat(p: seq<Holding>, q: seq<Holding>)
    ensures TotalValueColumn(p + q) == TotalValueColumn(p) + TotalValueColumn(q)
  {
  }

  /** Total investment is additive over concatenation of tables. */
  lemma TotalInvestmentConcat(p: seq<Holding>, q: seq<Holding>)
    ensures TotalInvestment(p + q) == TotalInvestment(p) + TotalInvestment(q)
  {
    ColumnConcat(p, q);
    SumConcat(TotalValueColumn(p), TotalValueColumn(q));
  }

  /** Appending one row adds exactly that row's value. */
  lemma TotalInvestmentAppend(p: seq<Holding>, h: Holding)
    ensures TotalInvestment(p + [h]) == TotalInvestment(p) + RowTotal(h)
  {
    TotalInvestmentConcat(p, [h]);
    var c := TotalValueColumn([h]);
    assert c == [RowTotal(h)];
    assert c[..0] == [];
    assert Sum(c) == Sum(c[..0]) + c[0];
  }

  /** Total stocks held is additive over concatenation of tables. */
  lemma {:induction false} TotalStocksConcat(p: seq<Holding>, q: seq<Holding>)
    ensures TotalStocks(p + q) == TotalStocks(p) + TotalStocks(q)
    decreases |q|
  {
    if q == [] {
      assert p + q == p;
    } else {
      var q' := q[..|q| - 1];
      assert (p + q)[..|p + q| - 1] == p + q';
      TotalStocksConcat(p, q');
    }
  }

  /** Every admitted row holds at least one share, so the count of shares is
      at least the count of rows. */
  lemma {:induction false} TotalStocksAtLeastRows(p: seq<Holding>)
    requires AllWellFormed(p)
    ensures TotalStocks(p) >= |p|
    decreases |p|
  {
    if p != [] {
      var p' := p[..|p| - 1];
      assert AllWellFormed(p') by {
        forall i | 0 <= i < |p'| ensures WellFormed(p'[i]) {
          assert p'[i] == p[i];
        }
      }
      TotalStocksAtLeastRows(p');
      assert WellFormed(p[|p| - 1]);
    }
  }

  /** The investment splits into the part held in `s` and the rest, so a
      removal of `s` lowers the total by exactly the value of its rows. */
  lemma {:induction false} TotalInvestmentSplitsBySymbol(p: seq<Holding>, s: string)
    ensures TotalInvestment(p) == TotalInvestment(WithoutSymbol(p, s)) + TotalInvestment(OfSymbol(p, s))
    decreases |p|
  {
    if p != [] {
      var p' := p[..|p| - 1];
      var h := p[|p| - 1];
      TotalInvestmentSplitsBySymbol(p', s);
      LastSplit(p);
      TotalInvestmentAppend(p', h);
      if h.symbol == s {
        TotalInvestmentAppend(OfSymbol(p', s), h);
      } else {
        TotalInvestmentAppend(WithoutSymbol(p', s), h);
      }
    }
  }

  /** Likewise for the number of shares held. */
  lemma {:induction false} TotalStocksSplitsBySymbol(p: seq<Holding>, s: string)
    ensures TotalStocks(p) == TotalStocks(WithoutSymbol(p, s)) + TotalStocks(OfSymbol(p, s))
    decreases |p|
  {
    if p != [] {
      var p' := p[..|p| - 1];
      TotalStocksSplitsBySymbol(p', s);
      LastSplit(p);
    }
  }
}
