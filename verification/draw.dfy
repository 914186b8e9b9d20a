/** The draw engine: one weighted walk over the catalog per random value. */
module Draw {
  import opened Wrappers
  import opened Catalog

  /** The walk of the `for … of` loop: starting from `remainder`, return the
      first item whose weight is strictly greater than what remains,
      subtracting each passed weight. Running off the end yields `undefined`,
      here `None`; there is no fallback to the last item. */
  function Walk(items: seq<Item>, remainder: real): (choice: Option<Item>)
    ensures choice.Some? ==> choice.value in items
  {
    if |items| == 0 then None
    else if remainder < items[0].weight then Some(items[0])
    else Walk(items[1..], remainder - items[0].weight)
  }

  /** `i` is the first index whose band's upper edge lies above `r`: `r`
      lies below the upper edge of band `i` and on or above the upper edge of
      every earlier band. */
  predicate FirstCrossing(catalog: seq<Item>, r: real, i: nat) {
    && i < |catalog|
    && r < BandEnd(catalog, i)
    && forall j :: 0 <= j < i ==> BandEnd(catalog, j) <= r
  }

  /** No band's upper edge lies above `r`. */
  predicate NoCrossing(catalog: seq<Item>, r: real) {
    forall i :: 0 <= i < |catalog| ==> BandEnd(catalog, i) <= r
  }

  /** The walk returns the item at the first crossing. */
  lemma {:induction false} WalkFindsFirstCrossing(catalog: seq<Item>, r: real, i: nat)
    requires FirstCrossing(catalog, r, i)
    ensures Walk(catalog, r) == Some(catalog[i])
  {
    BandWidth(catalog, 0);
    if i > 0 {
      var rest := catalog[1..];
      var w := catalog[0].weight;
      BandEndTail(catalog, i - 1);
      forall j | 0 <= j < i - 1
        ensures BandEnd(rest, j) <= r - w
      {
        BandEndTail(catalog, j);
      }
      assert FirstCrossing(rest, r - w, i - 1);
      WalkFindsFirstCrossing(rest, r - w, i - 1);
    }
  }

  /** Conversely, whenever the walk returns an item, it stopped at a first
      crossing and returned the item there. */
  lemma {:induction false} WalkSomeIsFirstCrossing(catalog: seq<Item>, r: real)
    ensures Walk(catalog, r).Some? ==>
      exists i: nat :: FirstCrossing(catalog, r, i) && Walk(catalog, r) == Some(catalog[i])
  {
    if |catalog| > 0 {
      var w := catalog[0].weight;
      BandWidth(catalog, 0);
      if r < w {
        assert FirstCrossing(catalog, r, 0);
      } else {
        var rest := catalog[1..];
        WalkSomeIsFirstCrossing(rest, r - w);
        if Walk(rest, r - w).Some? {
          var i: nat :| FirstCrossing(rest, r - w, i) && Walk(rest, r - w) == Some(rest[i]);
          BandEndTail(catalog, i);
          forall j | 0 <= j < i + 1
            ensures BandEnd(catalog, j) <= r
          {
            if j > 0 {
              BandEndTail(catalog, j - 1);
            }
          }
          assert FirstCrossing(catalog, r, i + 1);
        }
      }
    }
  }

  /** The walk runs off the end exactly when no band edge lies above `r`. */
  lemma {:induction false} WalkNoneIffNoCrossing(catalog: seq<Item>, r: real)
    ensures Walk(catalog, r).None? <==> NoCrossing(catalog, r)
  {
    if |catalog| > 0 {
      var rest := catalog[1..];
      var w := catalog[0].weight;
      BandWidth(catalog, 0);
      if w <= r {
        WalkNoneIffNoCrossing(rest, r - w);
        forall j | 0 <= j < |rest|
          ensures BandEnd(catalog, j + 1) == w + BandEnd(rest, j)
        {
          BandEndTail(catalog, j);
        }
        if NoCrossing(rest, r - w) {
          forall i | 0 <= i < |catalog|
            ensures BandEnd(catalog, i) <= r
          {
            if i > 0 {
              assert BandEnd(catalog, (i - 1) + 1) == w + BandEnd(rest, i - 1);
            }
          }
        } else {
          var j :| 0 <= j < |rest| && r - w < BandEnd(rest, j);
          assert r < BandEnd(catalog, j + 1);
        }
      }
    }
  }

  /** `weightedRandomChoice` with `Math.random()` supplied as `u`: the walk
      from `u * totalWeight`. */
  function WeightedRandomChoice(catalog: seq<Item>, u: real): (choice: Option<Item>)
    ensures choice.Some? ==> choice.value in catalog
  {
    Walk(catalog, StartPoint(catalog, u))
  }

  /** The walk's starting remainder `Math.random() * totalWeight`. */
  function StartPoint(catalog: seq<Item>, u: real): real
  {
    u * TotalWeight(catalog)
  }

  /** With a positive total and `u` in [0, 1), the draw always yields an
      item, whatever the signs of the individual weights. */
  lemma ChoiceDefinedInRange(catalog: seq<Item>, u: real)
    requires TotalWeight(catalog) > 0.0
    requires 0.0 <= u < 1.0
    ensures WeightedRandomChoice(catalog, u).Some?
  {
    var t := TotalWeight(catalog);
    var r := StartPoint(catalog, u);
    ScaledBelowTotal(u, t);
    assert r == u * t;
    assert |catalog| > 0;
    var last := |catalog| - 1;
    LastBandEndsAtTotal(catalog);
    assert BandEnd(catalog, last) == t;
    assert r < BandEnd(catalog, last);
    WalkNoneIffNoCrossing(catalog, r);
  }

  /** With non-negative weights, a zero total (which includes the empty
      catalog) or `u` at or beyond 1 leaves the walk without a result. */
  lemma ChoiceUndefinedOutOfRange(catalog: seq<Item>, u: real)
    requires NonNegativeWeights(catalog)
    requires TotalWeight(catalog) == 0.0 || u >= 1.0
    ensures WeightedRandomChoice(catalog, u).None?
  {
    var t := TotalWeight(catalog);
    var r := StartPoint(catalog, u);
    ScaledAtLeastTotal(u, t);
    assert t <= r;
    forall i | 0 <= i < |catalog|
      ensures BandEnd(catalog, i) <= r
    {
      BandEndMonotone(catalog, i, i);
    }
    WalkNoneIffNoCrossing(catalog, r);
  }

  /** For non-negative weights and a point at or above zero, the walk stops
      at item `i` exactly when the point lies in band `i`: the bands tile
      [0, total) end to end. */
  lemma FirstCrossingIsBand(catalog: seq<Item>, r: real, i: nat)
    requires NonNegativeWeights(catalog)
    requires 0.0 <= r
    requires i < |catalog|
    ensures FirstCrossing(catalog, r, i) <==> BandStart(catalog, i) <= r < BandEnd(catalog, i)
  {
    BandWidth(catalog, i);
    if FirstCrossing(catalog, r, i) {
      if i > 0 {
        assert BandEnd(catalog, i - 1) <= r;
      } else {
        assert catalog[..0] == [];
      }
    }
    if BandStart(catalog, i) <= r < BandEnd(catalog, i) {
      forall j | 0 <= j < i
        ensures BandEnd(catalog, j) <= r
      {
        BandEndMonotone(catalog, j, i - 1);
      }
    }
  }

  /** Roulette-wheel reading of a draw: for non-negative weights and a
      positive total, item `i` is chosen exactly when `u` falls in
      [BandStart / total, BandEnd / total), an interval whose width is the
      item's share of the total weight. */
  lemma ChoiceSelectsBand(catalog: seq<Item>, u: real, i: nat)
    requires NonNegativeWeights(catalog)
    requires TotalWeight(catalog) > 0.0
    requires 0.0 <= u
    requires i < |catalog|
    ensures FirstCrossing(catalog, StartPoint(catalog, u), i)
        <==> BandStart(catalog, i) / TotalWeight(catalog) <= u < BandEnd(catalog, i) / TotalWeight(catalog)
    ensures FirstCrossing(catalog, StartPoint(catalog, u), i)
        ==> WeightedRandomChoice(catalog, u) == Some(catalog[i])
    ensures BandEnd(catalog, i) / TotalWeight(catalog) - BandStart(catalog, i) / TotalWeight(catalog)
        == catalog[i].weight / TotalWeight(catalog)
  {
    var t := TotalWeight(catalog);
    var r := StartPoint(catalog, u);
    var s, e := BandStart(catalog, i), BandEnd(catalog, i);
    assert r == u * t;
    BandWidth(catalog, i);
    NonNegativeScale(u, t);
    FirstCrossingIsBand(catalog, r, i);
    assert FirstCrossing(catalog, r, i) <==> s <= r < e;
    ScaleBand(s, e, catalog[i].weight, u, t);
    assert s <= r < e <==> s / t <= u < e / t;
    if FirstCrossing(catalog, r, i) {
      WalkFindsFirstCrossing(catalog, r, i);
    }
  }

  /** A non-negative factor keeps a positive total non-negative. */
  lemma NonNegativeScale(u: real, t: real)
    requires 0.0 <= u && t > 0.0
    ensures 0.0 <= u * t
  {
  }

  /** No item appears twice in the catalog. */
  predicate DistinctItems(catalog: seq<Item>) {
    forall i, j :: 0 <= i < j < |catalog| ==> catalog[i] != catalog[j]
  }

  /** The way back from a drawn item to its band: in a catalog without
      repeated items, a draw that returned item `i` was made with `u` in
      [BandStart / total, BandEnd / total), so no other value of `u` can
      produce it. */
  lemma ChosenItemLiesInBand(catalog: seq<Item>, u: real, i: nat)
    requires NonNegativeWeights(catalog)
    requires TotalWeight(catalog) > 0.0
    requires 0.0 <= u
    requires i < |catalog|
    requires DistinctItems(catalog)
    ensures WeightedRandomChoice(catalog, u) == Some(catalog[i]) <==>
      BandStart(catalog, i) / TotalWeight(catalog) <= u < BandEnd(catalog, i) / TotalWeight(catalog)
  {
    var r := StartPoint(catalog, u);
    ChoiceSelectsBand(catalog, u, i);
    if WeightedRandomChoice(catalog, u) == Some(catalog[i]) {
      WalkSomeIsFirstCrossing(catalog, r);
      var j: nat :| FirstCrossing(catalog, r, j) && Walk(catalog, r) == Some(catalog[j]);
      assert catalog[j] == catalog[i];
      assert j == i;
    }
  }

  /** A random value in [0, 1) scales the total to a point strictly below it. */
  lemma ScaledBelowTotal(u: real, t: real)
    requires 0.0 <= u < 1.0 && t > 0.0
    ensures 0.0 <= u * t < t
  {
    assert t - u * t == (1.0 - u) * t;
  }

  /** A zero total, or a factor of at least 1, scales the total to a point at
      or above it. */
  lemma ScaledAtLeastTotal(u: real, t: real)
    requires t >= 0.0
    requires t == 0.0 || u >= 1.0
    ensures t <= u * t
  {
    if t != 0.0 {
      assert u * t - t == (u - 1.0) * t;
    }
  }

  /** Comparing `u * t` with a band [s, e) of width `w` is comparing `u`
      with the band scaled down by `t`, whose width is `w / t`. */
  lemma ScaleBand(s: real, e: real, w: real, u: real, t: real)
    requires t > 0.0
    requires e == s + w
    ensures s <= u * t < e <==> s / t <= u < e / t
    ensures e / t - s / t == w / t
  {
    assert s == (s / t) * t;
    assert e == (e / t) * t;
    assert u * t - s == (u - s / t) * t;
    assert u * t - e == (u - e / t) * t;
  }

  /** `gachaSimulation`: one independent draw per supplied random value,
      appended in order; the number of draws is the number of values. */
  function GachaSimulation(catalog: seq<Item>, randoms: seq<real>): (results: seq<Option<Item>>)
    ensures |results| == |randoms|
    ensures forall i :: 0 <= i < |randoms| ==> results[i] == WeightedRandomChoice(catalog, randoms[i])
  {
    if |randoms| == 0 then []
    else
      GachaSimulation(catalog, randoms[..|randoms| - 1])
        + [WeightedRandomChoice(catalog, randoms[|randoms| - 1])]
  }

  /** Every random value in [0, 1) yields a catalog item when the catalog's
      total weight is positive. */
  predicate ValidDraws(catalog: seq<Item>, randoms: seq<real>) {
    TotalWeight(catalog) > 0.0 && forall i :: 0 <= i < |randoms| ==> 0.0 <= randoms[i] < 1.0
  }

  /** Against a catalog with a positive total, every value in [0, 1) yields a
      catalog item. */
  lemma SimulationDefined(catalog: seq<Item>, randoms: seq<real>)
    ensures ValidDraws(catalog, randoms) ==> forall i :: 0 <= i < |randoms| ==>
      GachaSimulation(catalog, randoms)[i].Some? && GachaSimulation(catalog, randoms)[i].value in catalog
  {
    if ValidDraws(catalog, randoms) {
      forall i | 0 <= i < |randoms|
        ensures GachaSimulation(catalog, randoms)[i].Some?
      {
        ChoiceDefinedInRange(catalog, randoms[i]);
      }
    }
  }

  /** The results as plain items when every draw produced one. An `undefined`
      draw makes the report's `result['Grade']` throw; that run yields None. */
  function Drawn(results: seq<Option<Item>>): (items: Option<seq<Item>>)
    ensures items.Some? <==> forall i :: 0 <= i < |results| ==> results[i].Some?
    ensures items.Some? ==> |items.value| == |results|
    ensures items.Some? ==> forall i :: 0 <= i < |results| ==> results[i] == Some(items.value[i])
  {
    if |results| == 0 then Some([])
    else match Drawn(results[..|results| - 1]) {
      case None => None
      case Some(front) =>
        match results[|results| - 1] {
          case None => None
          case Some(last) => Some(front + [last])
        }
    }
  }
}
