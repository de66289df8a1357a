/** Risk assessment: a fixed threshold on the volatility of each symbol's
    recent closes, reported only for symbols whose history came back with data. */
module Risk {
  import opened Holdings

  datatype RiskLevel = Low | High

  /** Volatility strictly above this is high risk. */
  const HighVolatility: real := 0.05

  /** The step function from volatility to risk level. */
  function Classify(volatility: real): (r: RiskLevel)
    ensures r == High <==> volatility > HighVolatility
    ensures r == Low <==> volatility <= HighVolatility
  {
    if volatility > HighVolatility then High else Low
  }

  /** A higher volatility never classifies as a lower risk. */
  lemma ClassifyIsMonotone(v: real, w: real)
    requires v <= w
    ensures Classify(v) == High ==> Classify(w) == High
    ensures Classify(w) == Low ==> Classify(v) == Low
  {
  }

  /** One line of the risk report. */
  datatype RiskEntry = RiskEntry(symbol: string, volatility: real, level: RiskLevel)

  /** A history fetch that succeeded and returned at least one close. */
  predicate HasData(history: Option<seq<real>>)
  {
    history.Some? && |history.value| > 0
  }

  /** The symbols named by a report, line by line. */
  function EntrySymbols(r: seq<RiskEntry>): (ss: seq<string>)
    ensures |ss| == |r|
    ensures forall i :: 0 <= i < |r| ==> ss[i] == r[i].symbol
  {
    seq(|r|, i requires 0 <= i < |r| => r[i].symbol)
  }

  /** The risk report over `symbols` in their order, skipping those without
      data. `fetch` is the market-data lookup and `volatility` the measure
      computed from a list of closes; both are supplied by the caller. */
  function Report(symbols: seq<string>, fetch: string -> Option<seq<real>>, volatility: seq<real> -> real): (r: seq<RiskEntry>)
    ensures |r| <= |symbols|
    ensures forall e :: e in r ==>
      && HasData(fetch(e.symbol))
      && e.volatility == volatility(fetch(e.symbol).value)
      && e.level == Classify(e.volatility)
    ensures forall s :: s in EntrySymbols(r) <==> s in symbols && HasData(fetch(s))
  {
    if symbols == [] then []
    else
      var rest := Report(symbols[..|symbols| - 1], fetch, volatility);
      var s := symbols[|symbols| - 1];
      var history := fetch(s);
      assert symbols == symbols[..|symbols| - 1] + [s];
      if HasData(history) then
        var v := volatility(history.value);
        var e := RiskEntry(s, v, Classify(v));
        assert EntrySymbols(rest + [e]) == EntrySymbols(rest) + [s];
        rest + [e]
      else rest
  }

  /** The report of a concatenation is the concatenation of the reports, so
      lines appear in the order of the symbols and none affects another. */
  lemma {:induction false} ReportConcat(xs: seq<string>, ys: seq<string>,
                                        fetch: string -> Option<seq<real>>, volatility: seq<real> -> real)
    ensures Report(xs + ys, fetch, volatility) == Report(xs, fetch, volatility) + Report(ys, fetch, volatility)
    decreases |ys|
  {
    if ys == [] {
      assert xs + ys == xs;
    } else {
      var ys' := ys[..|ys| - 1];
      assert (xs + ys)[..|xs + ys| - 1] == xs + ys';
      ReportConcat(xs, ys', fetch, volatility);
    }
  }

  /** The report for one symbol: a single line when its history has data,
      none otherwise. */
  lemma ReportSingle(s: string, fetch: string -> Option<seq<real>>, volatility: seq<real> -> real)
    ensures Report([s], fetch, volatility) ==
      if HasData(fetch(s)) then [RiskEntry(s, volatility(fetch(s).value), Classify(volatility(fetch(s).value)))] else []
  {
    assert [s][..0] == [];
  }

  /** A symbol without data contributes nothing: the report is as if it were absent. */
  lemma SkipsSymbolWithoutData(xs: seq<string>, s: string, ys: seq<string>,
                               fetch: string -> Option<seq<real>>, volatility: seq<real> -> real)
    requires !HasData(fetch(s))
    ensures Report(xs + [s] + ys, fetch, volatility) == Report(xs + ys, fetch, volatility)
  {
    ReportConcat(xs + [s], ys, fetch, volatility);
    ReportConcat(xs, [s], fetch, volatility);
    ReportConcat(xs, ys, fetch, volatility);
    ReportSingle(s, fetch, volatility);
  }

  /** Over distinct symbols the report names each symbol at most once. */
  lemma {:induction false} ReportHasNoRepeats(symbols: seq<string>, fetch: string -> Option<seq<real>>,
                                              volatility: seq<real> -> real)
    requires NoRepeats(symbols)
    ensures NoRepeats(EntrySymbols(Report(symbols, fetch, volatility)))
    decreases |symbols|
  {
    if symbols != [] {
      var n := |symbols| - 1;
      var s' := symbols[..n];
      var rest := Report(s', fetch, volatility);
      assert symbols == s' + [symbols[n]];
      ReportHasNoRepeats(s', fetch, volatility);
      if HasData(fetch(symbols[n])) {
        var v := volatility(fetch(symbols[n]).value);
        assert Report(symbols, fetch, volatility) == rest + [RiskEntry(symbols[n], v, Classify(v))];
        assert EntrySymbols(rest + [RiskEntry(symbols[n], v, Classify(v))]) == EntrySymbols(rest) + [symbols[n]];
        assert symbols[n] !in s';
        var ss0 := EntrySymbols(rest);
        assert symbols[n] !in ss0;
        var ss := ss0 + [symbols[n]];
        assert NoRepeats(ss0);
        forall i, j | 0 <= i < j < |ss| ensures ss[i] != ss[j] {
          assert ss[i] == ss0[i];
          if j < |ss0| {
            assert ss[j] == ss0[j];
          }
        }
      } else {
        assert Report(symbols, fetch, volatility) == rest;
      }
    }
  }
}
