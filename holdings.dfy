/** The portfolio table: one record per purchase, kept in insertion order,
    and the two boolean masks the script applies to it by symbol. */
module Holdings {

  datatype Option<T> = None | Some(value: T)

  /** One row of the table: columns Symbol, Quantity, Price and Date Added.
      The price is the close fetched when the row was added; the timestamp is
      an opaque text supplied by the caller. */
  datatype Holding = Holding(symbol: string, quantity: int, price: real, dateAdded: string)

  /** What the add guard lets through: a non-empty symbol and a positive quantity. */
  predicate WellFormed(h: Holding)
  {
    h.symbol != "" && h.quantity > 0
  }

  predicate AllWellFormed(p: seq<Holding>)
  {
    forall i :: 0 <= i < |p| ==> WellFormed(p[i])
  }

  /** No symbol occurs twice. */
  predicate NoRepeats(ss: seq<string>)
  {
    forall i, j :: 0 <= i < j < |ss| ==> ss[i] != ss[j]
  }

  /** Some record of `p` carries symbol `s`. */
  predicate Mentions(p: seq<Holding>, s: string)
  {
    exists i :: 0 <= i < |p| && p[i].symbol == s
  }

  /** The rows kept by the mask `Symbol != s`, in their original order. */
  function WithoutSymbol(p: seq<Holding>, s: string): (r: seq<Holding>)
    ensures |r| <= |p|
    ensures forall i :: 0 <= i < |r| ==> r[i].symbol != s && r[i] in p
    ensures forall i :: 0 <= i < |p| && p[i].symbol != s ==> p[i] in r
  {
    if p == [] then []
    else
      var rest := WithoutSymbol(p[..|p| - 1], s);
      if p[|p| - 1].symbol == s then rest else rest + [p[|p| - 1]]
  }

  /** The rows selected by the mask `Symbol == s`, in their original order. */
  function OfSymbol(p: seq<Holding>, s: string): (r: seq<Holding>)
    ensures |r| <= |p|
    ensures forall i :: 0 <= i < |r| ==> r[i].symbol == s && r[i] in p
    ensures forall i :: 0 <= i < |p| && p[i].symbol == s ==> p[i] in r
  {
    if p == [] then []
    else
      var rest := OfSymbol(p[..|p| - 1], s);
      if p[|p| - 1].symbol == s then rest + [p[|p| - 1]] else rest
  }

  lemma LastSplit(p: seq<Holding>)
    requires p != []
    ensures p == p[..|p| - 1] + [p[|p| - 1]]
  {
  }

  /** Both masks distribute over concatenation, so they act row by row. */
  lemma {:induction false} WithoutSymbolConcat(p: seq<Holding>, q: seq<Holding>, s: string)
    ensures WithoutSymbol(p + q, s) == WithoutSymbol(p, s) + WithoutSymbol(q, s)
    decreases |q|
  {
    if q == [] {
      assert p + q == p;
    } else {
      var q' := q[..|q| - 1];
      assert (p + q)[..|p + q| - 1] == p + q';
      assert (p + q)[|p + q| - 1] == q[|q| - 1];
      WithoutSymbolConcat(p, q', s);
    }
  }

  lemma {:induction false} OfSymbolConcat(p: seq<Holding>, q: seq<Holding>, s: string)
    ensures OfSymbol(p + q, s) == OfSymbol(p, s) + OfSymbol(q, s)
    decreases |q|
  {
    if q == [] {
      assert p + q == p;
    } else {
      var q' := q[..|q| - 1];
      assert (p + q)[..|p + q| - 1] == p + q';
      assert (p + q)[|p + q| - 1] == q[|q| - 1];
      OfSymbolConcat(p, q', s);
    }
  }

  /** Removing a symbol the table does not mention changes nothing. */
  lemma {:induction false} WithoutAbsentSymbol(p: seq<Holding>, s: string)
    requires !Mentions(p, s)
    ensures WithoutSymbol(p, s) == p
    decreases |p|
  {
    if p != [] {
      var p' := p[..|p| - 1];
      assert !Mentions(p', s) by {
        forall i | 0 <= i < |p'| ensures p'[i].symbol != s {
          assert p'[i] == p[i];
        }
      }
      WithoutAbsentSymbol(p', s);
      assert p[|p| - 1].symbol != s;
      LastSplit(p);
    }
  }

  /** After removing `s` no row has symbol `s`. */
  lemma RemovedSymbolIsGone(p: seq<Holding>, s: string)
    ensures !Mentions(WithoutSymbol(p, s), s)
  {
  }

  /** Removing the same symbol twice is the same as removing it once. */
  lemma RemoveIsIdempotent(p: seq<Holding>, s: string)
    ensures WithoutSymbol(WithoutSymbol(p, s), s) == WithoutSymbol(p, s)
  {
    RemovedSymbolIsGone(p, s);
    WithoutAbsentSymbol(WithoutSymbol(p, s), s);
  }

  /** Removing `s` keeps the rows of every other symbol `t`, all of them and
      in their original relative order. */
  lemma {:induction false} RemoveKeepsOtherSymbols(p: seq<Holding>, s: string, t: string)
    requires s != t
    ensures OfSymbol(WithoutSymbol(p, s), t) == OfSymbol(p, t)
    decreases |p|
  {
    if p != [] {
      var p' := p[..|p| - 1];
      var h := p[|p| - 1];
      RemoveKeepsOtherSymbols(p', s, t);
      if h.symbol != s {
        OfSymbolConcat(WithoutSymbol(p', s), [h], t);
      }
    }
  }

  /** The two masks split the table: every row lands in exactly one part. */
  lemma {:induction false} RemovePartitions(p: seq<Holding>, s: string)
    ensures multiset(p) == multiset(WithoutSymbol(p, s)) + multiset(OfSymbol(p, s))
    decreases |p|
  {
    if p != [] {
      var p' := p[..|p| - 1];
      RemovePartitions(p', s);
      LastSplit(p);
      assert multiset(p) == multiset(p') + multiset{p[|p| - 1]};
    }
  }

  /** The mask keeps the add guard's invariant. */
  lemma RemoveKeepsWellFormed(p: seq<Holding>, s: string)
    requires AllWellFormed(p)
    ensures AllWellFormed(WithoutSymbol(p, s))
  {
  }

  /** Appending a row of a symbol the table did not mention and then removing
      that symbol gives back the original table. */
  lemma RemoveUndoesAddOfNewSymbol(p: seq<Holding>, h: Holding)
    requires !Mentions(p, h.symbol)
    ensures WithoutSymbol(p + [h], h.symbol) == p
  {
    WithoutSymbolConcat(p, [h], h.symbol);
    WithoutAbsentSymbol(p, h.symbol);
  }
}
