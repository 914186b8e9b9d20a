/** Concrete draws and reports on small catalogs. */
module Scenarios {
  import opened Wrappers
  import opened Catalog
  import opened Draw
  import opened Tally
  import opened Batches
  import opened Report

  const Stick := Item("Common", "Stick", 0.8)
  const Dragon := Item("Legendary", "Dragon", 0.2)

  /** A catalog of an 80% Common and a 20% Legendary item. */
  const TwoBand: seq<Item> := [Stick, Dragon]

  /** The two weights are non-negative and add up to one. */
  lemma TwoBandTotal()
    ensures NonNegativeWeights(TwoBand) && TotalWeight(TwoBand) == 1.0
  {
    assert TwoBand[1..] == [Dragon];
    assert [Dragon][1..] == [];
    assert WeightSum([Dragon]) == 0.2;
  }

  /** Every random value below 0.8 lands on the Stick, every value in
      [0.8, 1) on the Dragon, and a value of 1 or more on nothing. */
  lemma TwoBandDraws(u: real)
    ensures WeightedRandomChoice(TwoBand, u)
      == if u < 0.8 then Some(Stick) else if u < 1.0 then Some(Dragon) else None
  {
    TwoBandTotal();
    assert TwoBand[1..] == [Dragon];
    assert [Dragon][1..] == [];
    assert StartPoint(TwoBand, u) == u;
    assert Walk(TwoBand, u) == if u < 0.8 then Some(Stick) else Walk([Dragon], u - 0.8);
  }

  /** Drawing with 0.1 then 0.9 yields the Stick then the Dragon. */
  lemma TwoBandSimulation()
    ensures GachaSimulation(TwoBand, [0.1, 0.9]) == [Some(Stick), Some(Dragon)]
  {
    TwoBandTotal();
    assert TwoBand[1..] == [Dragon];
    assert StartPoint(TwoBand, 0.9) == 0.9;
    assert Walk(TwoBand, 0.9) == Walk([Dragon], 0.9 - 0.8);
  }

  /** The tally of one Stick and one Dragon counts one of each grade. */
  lemma TwoBandTally()
    ensures GradeCounts([Stick, Dragon]) == map["Common" := 1, "Legendary" := 1]
  {
    var counts := GradeCounts([Stick, Dragon]);
    assert [Stick, Dragon][1..] == [Dragon];
    assert [Dragon][1..] == [];
    assert Stick.grade != Dragon.grade by {
      assert Stick.grade[0] != Dragon.grade[0];
    }
    forall g
      ensures Count([Stick, Dragon], g)
        == (if g == "Common" then 1 else 0) + (if g == "Legendary" then 1 else 0)
    {
      assert Count([Dragon], g) == (if g == "Legendary" then 1 else 0);
    }
    TalliesEqual(counts, map["Common" := 1, "Legendary" := 1]);
  }

  /** At the very top of the sampling interval (a random value of exactly 1,
      which `Math.random()` never returns, or rounding that reaches the
      total) the walk runs off the end: there is no fall back to the last
      item. */
  lemma NoFallbackAtUpperBoundary()
    ensures WeightedRandomChoice([Item("Common", "A", 0.5), Item("Common", "B", 0.5)], 1.0) == None
  {
    var catalog := [Item("Common", "A", 0.5), Item("Common", "B", 0.5)];
    assert catalog[1..] == [Item("Common", "B", 0.5)];
  }

  /** Two gachas whose only Epic draws are at positions 3 and 15 list them
      in that order, tagged gacha 1 and gacha 2. */
  lemma EpicDrawsTaggedByGacha()
    ensures var results := seq(22, p => if p == 3 || p == 15 then Item("Epic", "Sword", 0.1)
                                        else Item("Common", "Stick", 0.9));
      HighGradeListing(results, 1)
        == [Listed(1, Item("Epic", "Sword", 0.1)), Listed(2, Item("Epic", "Sword", 0.1))]
  {
    var sword := Item("Epic", "Sword", 0.1);
    var results := seq(22, p => if p == 3 || p == 15 then sword else Item("Common", "Stick", 0.9));
    var prefix := ReportedPrefix(results, 1);
    assert prefix == results;
    HighPositionsUnique(prefix, [3, 15]);
  }
}
