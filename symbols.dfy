/** The distinct symbols of the table in order of first appearance, as the
    column's `unique()` gives them: the options of the remove menu, the
    symbols the per-symbol loops visit, and the count the diversity rule reads. */
module Symbols {
  import opened Holdings

  /** Each symbol once, at the place of its first row. */
  function Distinct(p: seq<Holding>): (d: seq<string>)
    ensures |d| <= |p|
    ensures NoRepeats(d)
    ensures forall s :: s in d <==> Mentions(p, s)
  {
    if p == [] then []
    else
      var p' := p[..|p| - 1];
      var h := p[|p| - 1];
      var d' := Distinct(p');
      assert forall s :: Mentions(p, s) <==> Mentions(p', s) || h.symbol == s by {
        forall s ensures Mentions(p, s) <==> Mentions(p', s) || h.symbol == s {
          if Mentions(p', s) {
            var i :| 0 <= i < |p'| && p'[i].symbol == s;
            assert p[i] == p'[i];
          }
          if Mentions(p, s) && h.symbol != s {
            var i :| 0 <= i < |p| && p[i].symbol == s;
            assert p'[i] == p[i];
          }
        }
      }
      if h.symbol in d' then d' else d' + [h.symbol]
  }

  /** Index of the first row with symbol `s`. */
  function FirstIndex(p: seq<Holding>, s: string): (k: nat)
    requires Mentions(p, s)
    ensures k < |p| && p[k].symbol == s
    ensures forall i :: 0 <= i < k ==> p[i].symbol != s
  {
    var n := |p| - 1;
    if Mentions(p[..n], s) then
      var k := FirstIndex(p[..n], s);
      assert forall i :: 0 <= i <= k ==> p[..n][i] == p[i];
      k
    else
      assert forall i :: 0 <= i < n ==> p[..n][i] == p[i];
      n
  }

  /** Adding a row extends the list by its symbol exactly when that symbol is new. */
  lemma DistinctAppend(p: seq<Holding>, h: Holding)
    ensures Distinct(p + [h]) == if h.symbol in Distinct(p) then Distinct(p) else Distinct(p) + [h.symbol]
  {
    assert (p + [h])[..|p|] == p;
  }

  /** The list is in first-appearance order: an earlier entry's first row
      comes before a later entry's first row. */
  lemma {:induction false} DistinctInFirstSeenOrder(p: seq<Holding>, i: nat, j: nat)
    requires i < j < |Distinct(p)|
    ensures FirstIndex(p, Distinct(p)[i]) < FirstIndex(p, Distinct(p)[j])
    decreases |p|
  {
    var n := |p| - 1;
    var p' := p[..n];
    var d' := Distinct(p');
    assert p == p' + [p[n]];
    DistinctAppend(p', p[n]);
    var d := Distinct(p);
    // Entries already present in the prefix keep their first index.
    assert d[i] == d'[i];
    assert Mentions(p', d[i]);
    if j < |d'| {
      assert d[j] == d'[j];
      DistinctInFirstSeenOrder(p', i, j);
    } else {
      // The last entry is the symbol of the last row, new to the prefix.
      assert d[j] !in d';
      assert !Mentions(p', d[j]);
    }
  }

  /** Drops every occurrence of `s` from a list of symbols. */
  function Erase(d: seq<string>, s: string): (r: seq<string>)
    ensures forall t :: t in r <==> t in d && t != s
  {
    if d == [] then []
    else
      var rest := Erase(d[..|d| - 1], s);
      assert forall t :: t in d <==> t in d[..|d| - 1] || t == d[|d| - 1] by {
        assert d == d[..|d| - 1] + [d[|d| - 1]];
      }
      if d[|d| - 1] == s then rest else rest + [d[|d| - 1]]
  }

  lemma EraseAppend(d: seq<string>, x: string, s: string)
    ensures Erase(d + [x], s) == if x == s then Erase(d, s) else Erase(d, s) + [x]
  {
    assert (d + [x])[..|d|] == d;
  }

  /** One row of the induction for DistinctAfterRemove. */
  lemma DistinctAfterRemoveStep(p: seq<Holding>, h: Holding, s: string)
    requires Distinct(WithoutSymbol(p, s)) == Erase(Distinct(p), s)
    ensures Distinct(WithoutSymbol(p + [h], s)) == Erase(Distinct(p + [h]), s)
  {
    var w := WithoutSymbol(p, s);
    var d := Distinct(p);
    assert (p + [h])[..|p|] == p;
    assert WithoutSymbol(p + [h], s) == if h.symbol == s then w else w + [h];
    DistinctAppend(p, h);
    EraseAppend(d, h.symbol, s);
    if h.symbol != s {
      DistinctAppend(w, h);
      assert h.symbol in Distinct(w) <==> h.symbol in d;
    }
  }

  /** After removing `s`, the remove menu and the per-symbol loops see the
      old list with `s` taken out and every other symbol still in its place. */
  lemma {:induction false} DistinctAfterRemove(p: seq<Holding>, s: string)
    ensures Distinct(WithoutSymbol(p, s)) == Erase(Distinct(p), s)
    decreases |p|
  {
    if p != [] {
      var p' := p[..|p| - 1];
      DistinctAfterRemove(p', s);
      DistinctAfterRemoveStep(p', p[|p| - 1], s);
      LastSplit(p);
    }
  }
}
