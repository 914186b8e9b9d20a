/** The catalog of summonable items and the arithmetic of their weights. */
module Catalog {

  /** One catalog entry: its rarity grade, its display name and its draw
      weight, already normalised from the percentage string to a fraction. */
  datatype Item = Item(grade: string, name: string, weight: real)

  /** Every weight is non-negative, as a normalised percentage is. */
  predicate NonNegativeWeights(items: seq<Item>) {
    forall i :: 0 <= i < |items| ==> items[i].weight >= 0.0
  }

  /** The mathematical sum of the weights of `items`, first item first. */
  function WeightSum(items: seq<Item>): real
  {
    if |items| == 0 then 0.0 else items[0].weight + WeightSum(items[1..])
  }

  /** The running-sum fold `reduce((sum, item) => sum + weight, acc)`,
      which adds the weights to the accumulator in catalog order. */
  function FoldWeights(acc: real, items: seq<Item>): (sum: real)
    ensures sum == acc + WeightSum(items)
    decreases |items|
  {
    if |items| == 0 then acc else FoldWeights(acc + items[0].weight, items[1..])
  }

  /** `totalWeight`: the fold started from 0. */
  function TotalWeight(catalog: seq<Item>): (total: real)
    ensures total == WeightSum(catalog)
    ensures NonNegativeWeights(catalog) ==> total >= 0.0
    ensures |catalog| == 0 ==> total == 0.0
  {
    WeightSumNonNegative(catalog);
    FoldWeights(0.0, catalog)
  }

  /** A catalog of non-negative weights has a non-negative sum. */
  lemma {:induction false} WeightSumNonNegative(items: seq<Item>)
    ensures NonNegativeWeights(items) ==> WeightSum(items) >= 0.0
  {
    if |items| > 0 {
      WeightSumNonNegative(items[1..]);
      assert NonNegativeWeights(items) ==> NonNegativeWeights(items[1..]) by {
        if NonNegativeWeights(items) {
          forall i | 0 <= i < |items[1..]|
            ensures items[1..][i].weight >= 0.0
          {
            assert items[1..][i] == items[i + 1];
          }
        }
      }
    }
  }

  /** Summing a concatenation sums the two parts. */
  lemma {:induction false} WeightSumAppend(a: seq<Item>, b: seq<Item>)
    ensures WeightSum(a + b) == WeightSum(a) + WeightSum(b)
  {
    if |a| > 0 {
      assert (a + b)[1..] == a[1..] + b;
      WeightSumAppend(a[1..], b);
    } else {
      assert a + b == b;
    }
  }

  /** The lower edge of item `i`'s band on the wheel: the weight of the
      items before it. */
  function BandStart(catalog: seq<Item>, i: nat): real
    requires i < |catalog|
  {
    WeightSum(catalog[..i])
  }

  /** The upper edge of item `i`'s band: the weight of the items up to and
      including it. */
  function BandEnd(catalog: seq<Item>, i: nat): real
    requires i < |catalog|
  {
    WeightSum(catalog[..i + 1])
  }

  /** Each item's band is exactly as wide as its weight, and the bands are
      laid end to end: band `i` starts where band `i - 1` ends. */
  lemma BandWidth(catalog: seq<Item>, i: nat)
    requires i < |catalog|
    ensures BandEnd(catalog, i) == BandStart(catalog, i) + catalog[i].weight
    ensures i > 0 ==> BandStart(catalog, i) == BandEnd(catalog, i - 1)
  {
    assert catalog[..i + 1] == catalog[..i] + [catalog[i]];
    WeightSumAppend(catalog[..i], [catalog[i]]);
    assert WeightSum([catalog[i]]) == catalog[i].weight by {
      assert [catalog[i]][1..] == [];
    }
  }

  /** The last band ends at the total weight. */
  lemma LastBandEndsAtTotal(catalog: seq<Item>)
    requires |catalog| > 0
    ensures BandEnd(catalog, |catalog| - 1) == TotalWeight(catalog)
  {
    assert catalog[..|catalog|] == catalog;
  }

  /** With non-negative weights the band edges never decrease and never pass
      the total weight. */
  lemma {:induction false} BandEndMonotone(catalog: seq<Item>, i: nat, j: nat)
    requires NonNegativeWeights(catalog)
    requires i <= j < |catalog|
    ensures BandEnd(catalog, i) <= BandEnd(catalog, j) <= TotalWeight(catalog)
    decreases |catalog| - i
  {
    if i < j {
      BandWidth(catalog, i + 1);
      BandEndMonotone(catalog, i + 1, j);
    } else if j + 1 < |catalog| {
      BandWidth(catalog, j + 1);
      BandEndMonotone(catalog, j + 1, |catalog| - 1);
    } else {
      LastBandEndsAtTotal(catalog);
    }
  }

  /** The band edges of a catalog seen from its second item: dropping the
      first item shifts every later band down by the first weight. */
  lemma BandEndTail(catalog: seq<Item>, i: nat)
    requires i + 1 < |catalog|
    ensures BandEnd(catalog, i + 1) == catalog[0].weight + BandEnd(catalog[1..], i)
  {
    assert catalog[..i + 2][1..] == catalog[1..][..i + 1];
  }
}
