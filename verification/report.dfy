/** The data each gacha's report shows, without its terminal rendering: the
    gacha's draws and tally, the cumulative tally, the "Total draws" figure
    and the listing of Epic and Legendary draws. */
module Report {
  import opened Wrappers
  import opened Catalog
  import opened Draw
  import opened Tally
  import opened Batches

  /** The grades listed under "Items with grade Epic or higher" (exact
      string comparison). */
  predicate IsHighGrade(item: Item) {
    item.grade == "Epic" || item.grade == "Legendary"
  }

  /** One listing row: the 1-based gacha the draw belongs to and the item. */
  datatype Listed = Listed(gacha: nat, item: Item)

  /** The positions of the Epic and Legendary draws in `items`, ascending:
      exactly the high-grade positions, each once, in draw order. */
  function HighPositions(items: seq<Item>): (positions: seq<nat>)
    ensures forall k :: 0 <= k < |positions| ==>
      positions[k] < |items| && IsHighGrade(items[positions[k]])
    ensures Ascending(positions)
    ensures forall p :: 0 <= p < |items| && IsHighGrade(items[p]) ==> p in positions
  {
    if |items| == 0 then []
    else
      var last := |items| - 1;
      HighPositions(items[..last]) + (if IsHighGrade(items[last]) then [last] else [])
  }

  /** The three properties of HighPositions determine it: any ascending list
      of exactly the high-grade positions is HighPositions. */
  lemma HighPositionsUnique(items: seq<Item>, positions: seq<nat>)
    requires forall k :: 0 <= k < |positions| ==>
      positions[k] < |items| && IsHighGrade(items[positions[k]])
    requires Ascending(positions)
    requires forall p :: 0 <= p < |items| && IsHighGrade(items[p]) ==> p in positions
    ensures positions == HighPositions(items)
  {
    var expected := HighPositions(items);
    forall x
      ensures x in positions <==> x in expected
    {
      if x in positions {
        var k :| 0 <= k < |positions| && positions[k] == x;
      }
      if x in expected {
        var k :| 0 <= k < |expected| && expected[k] == x;
      }
    }
    AscendingWithSameElements(positions, expected);
  }

  /** Two strictly ascending sequences with the same elements are equal. */
  lemma {:induction false} AscendingWithSameElements(a: seq<nat>, b: seq<nat>)
    requires Ascending(a) && Ascending(b)
    requires forall x :: x in a <==> x in b
    ensures a == b
  {
    if |a| == 0 {
      if |b| > 0 {
        HeadIsMember(b);
        assert false;
      }
    } else {
      assert a[0] in b;
      assert b[0] in a;
      SameHead(a, b);
      SameTailElements(a, b);
      AscendingWithSameElements(a[1..], b[1..]);
      assert a == [a[0]] + a[1..];
      assert b == [b[0]] + b[1..];
    }
  }

  /** Strictly ascending. */
  predicate Ascending(s: seq<nat>) {
    forall k, l :: 0 <= k < l < |s| ==> s[k] < s[l]
  }

  /** The head of an ascending sequence is its least element. */
  lemma HeadIsLeast(s: seq<nat>, x: nat)
    requires Ascending(s) && x in s
    ensures s[0] <= x
  {
    var k :| 0 <= k < |s| && s[k] == x;
    if k > 0 {
      assert s[0] < s[k];
    }
  }

  /** Ascending sequences with the same elements start alike. */
  lemma SameHead(a: seq<nat>, b: seq<nat>)
    requires Ascending(a) && Ascending(b)
    requires |a| > 0 && |b| > 0
    requires forall x :: x in a <==> x in b
    ensures a[0] == b[0]
  {
    HeadIsLeast(a, b[0]);
    HeadIsLeast(b, a[0]);
  }

  /** Ascending sequences with the same elements and the same head have
      tails with the same elements. */
  lemma SameTailElements(a: seq<nat>, b: seq<nat>)
    requires Ascending(a) && Ascending(b)
    requires |a| > 0 && |b| > 0 && a[0] == b[0]
    requires forall x :: x in a <==> x in b
    ensures Ascending(a[1..]) && Ascending(b[1..])
    ensures forall x :: x in a[1..] <==> x in b[1..]
  {
    forall x | x in a[1..]
      ensures x in b[1..]
    {
      TailMember(a, b, x);
    }
    forall x | x in b[1..]
      ensures x in a[1..]
    {
      TailMember(b, a, x);
    }
  }

  /** An element of one tail is an element of the other. */
  lemma TailMember(a: seq<nat>, b: seq<nat>, x: nat)
    requires Ascending(a) && Ascending(b)
    requires |a| > 0 && |b| > 0 && a[0] == b[0]
    requires forall y :: y in a <==> y in b
    requires x in a[1..]
    ensures x in b[1..]
  {
    var k :| 0 <= k < |a[1..]| && a[1..][k] == x;
    assert a[k + 1] == x && a[0] < a[k + 1];
    assert x in b;
    var m :| 0 <= m < |b| && b[m] == x;
    assert m != 0;
    assert b[1..][m - 1] == x;
  }

  /** A non-empty sequence holds its first element. */
  lemma HeadIsMember(s: seq<nat>)
    ensures |s| > 0 ==> s[0] in s
  {
  }

  /** The `forEach((result, index) => …)` over a prefix: each Epic or
      Legendary draw, in order, tagged with `floor(index / 11) + 1`. */
  function ListingOf(items: seq<Item>): (listing: seq<Listed>)
    ensures |listing| == |HighPositions(items)|
    ensures forall k :: 0 <= k < |listing| ==>
      var p := HighPositions(items)[k];
      listing[k] == Listed(p / GachaSize + 1, items[p])
  {
    if |items| == 0 then []
    else
      var last := |items| - 1;
      ListingOf(items[..last])
        + (if IsHighGrade(items[last]) then [Listed(last / GachaSize + 1, items[last])] else [])
  }

  /** The listing shown after gacha `gachaIndex`: the Epic and Legendary
      draws of the cumulative prefix. */
  function HighGradeListing(results: seq<Item>, gachaIndex: nat): (listing: seq<Listed>)
    ensures |listing| == |HighPositions(ReportedPrefix(results, gachaIndex))|
    ensures forall k :: 0 <= k < |listing| ==>
      var p := HighPositions(ReportedPrefix(results, gachaIndex))[k];
      p < EndIndex(gachaIndex) && p < |results|
      && listing[k] == Listed(p / GachaSize + 1, results[p])
    ensures forall k :: 0 <= k < |listing| ==>
      IsHighGrade(listing[k].item) && 1 <= listing[k].gacha <= gachaIndex + 1
  {
    var prefix := ReportedPrefix(results, gachaIndex);
    ListingTagsBounded(prefix, gachaIndex);
    ListingOf(prefix)
  }

  /** Tags never exceed the gacha being reported. */
  lemma ListingTagsBounded(prefix: seq<Item>, gachaIndex: nat)
    requires |prefix| <= EndIndex(gachaIndex)
    ensures forall k :: 0 <= k < |ListingOf(prefix)| ==>
      IsHighGrade(ListingOf(prefix)[k].item) && 1 <= ListingOf(prefix)[k].gacha <= gachaIndex + 1
  {
    forall k | 0 <= k < |ListingOf(prefix)|
      ensures ListingOf(prefix)[k].gacha <= gachaIndex + 1
    {
      var p := HighPositions(prefix)[k];
      WindowOfIndex(p, p / GachaSize);
      assert p < EndIndex(gachaIndex);
    }
  }

  /** The tag of a listing row names the gacha whose 11-draw window holds
      that draw, and the draw sits in that window at offset `index % 11`. */
  lemma ListingTagLocatesDraw(results: seq<Item>, gachaIndex: nat, k: nat)
    requires k < |HighGradeListing(results, gachaIndex)|
    ensures var row := HighGradeListing(results, gachaIndex)[k];
      var p := HighPositions(ReportedPrefix(results, gachaIndex))[k];
      && p < |results|
      && (row.gacha - 1) * GachaSize <= p < EndIndex(row.gacha - 1)
      && BatchWindow(results, row.gacha - 1)[p - (row.gacha - 1) * GachaSize] == row.item
      && results[p] == row.item
  {
    var prefix := ReportedPrefix(results, gachaIndex);
    var p := HighPositions(prefix)[k];
    var g := p / GachaSize;
    WindowOfIndex(p, g);
    assert prefix[p] == results[p];
  }

  /** `getColorByGrade`: the five recognised grades get their own colours,
      and everything else falls back to white. */
  function ColorByGrade(grade: string): (color: string)
    ensures color == "white" <==> grade !in {"Uncommon", "Rare", "Epic", "Legendary"}
    ensures color == "green" <==> grade == "Uncommon"
    ensures color == "blue" <==> grade == "Rare"
    ensures color == "magenta" <==> grade == "Epic"
    ensures color == "yellow" <==> grade == "Legendary"
  {
    match grade
    case "Common" => "white"
    case "Uncommon" => "green"
    case "Rare" => "blue"
    case "Epic" => "magenta"
    case "Legendary" => "yellow"
    case _ => "white"
  }

  /** What one step of the report shows. */
  datatype BatchReport = BatchReport(
    gacha: nat,
    shown: seq<Item>,
    batchCounts: map<string, nat>,
    cumulativeCounts: map<string, nat>,
    totalDraws: nat,
    highGrades: seq<Listed>)

  /** The report for gacha `gachaIndex` (0-based) over all `results`: the
      gacha's window, its tally, the tally of the cumulative prefix, the
      "Total draws" figure and the Epic/Legendary listing. */
  function ReportFor(results: seq<Item>, gachaIndex: nat): (report: BatchReport)
    ensures report.gacha == gachaIndex + 1
    ensures report.shown == BatchWindow(results, gachaIndex)
    ensures forall g :: CountOf(report.batchCounts, g) == Count(report.shown, g)
    ensures forall g :: g in report.batchCounts <==> Count(report.shown, g) > 0
    ensures forall g ::
      CountOf(report.cumulativeCounts, g) == Count(ReportedPrefix(results, gachaIndex), g)
    ensures report.cumulativeCounts == SumOfBatchTallies(results, gachaIndex)
    ensures report.totalDraws == EndIndex(gachaIndex)
    ensures MapSum(report.batchCounts) == |report.shown|
    ensures EndIndex(gachaIndex) <= |results| ==>
      |report.shown| == GachaSize && MapSum(report.cumulativeCounts) == report.totalDraws
    ensures report.highGrades == HighGradeListing(results, gachaIndex)
  {
    var window := BatchWindow(results, gachaIndex);
    var prefix := ReportedPrefix(results, gachaIndex);
    CumulativeTallyIsSumOfBatches(results, gachaIndex);
    BatchReport(
      gachaIndex + 1,
      window,
      GradeCounts(window),
      GradeCounts(prefix),
      EndIndex(gachaIndex),
      HighGradeListing(results, gachaIndex))
  }

  /** The draws of a whole session: `numGachas * 11` draws, draw `i` made
      with `randoms[i]`. None when some draw came back `undefined`, which
      the report cannot display. */
  function Summon(catalog: seq<Item>, numGachas: nat, randoms: seq<real>): (results: Option<seq<Item>>)
    requires |randoms| == numGachas * GachaSize
    ensures results.Some? ==> |results.value| == numGachas * GachaSize
    ensures results.Some? ==> forall i :: 0 <= i < |randoms| ==>
      WeightedRandomChoice(catalog, randoms[i]) == Some(results.value[i])
    ensures results.None? <==>
      exists i :: 0 <= i < |randoms| && WeightedRandomChoice(catalog, randoms[i]).None?
    ensures results.Some? ==> forall i :: 0 <= i < |results.value| ==> results.value[i] in catalog
    ensures ValidDraws(catalog, randoms) ==> results.Some?
  {
    SimulationDefined(catalog, randoms);
    Drawn(GachaSimulation(catalog, randoms))
  }

  /** In a session whose draws are all defined, gacha `g`'s report shows the
      eleven draws made with random values `g * 11 … g * 11 + 10`, in order,
      and its cumulative tally accounts for every draw up to that gacha. */
  lemma SessionReport(catalog: seq<Item>, numGachas: nat, randoms: seq<real>, g: nat)
    requires |randoms| == numGachas * GachaSize
    requires Summon(catalog, numGachas, randoms).Some?
    requires g < numGachas
    ensures var report := ReportFor(Summon(catalog, numGachas, randoms).value, g);
      && |report.shown| == GachaSize
      && MapSum(report.cumulativeCounts) == report.totalDraws
      && forall j :: 0 <= j < GachaSize ==>
           WeightedRandomChoice(catalog, randoms[g * GachaSize + j]) == Some(report.shown[j])
  {
    var results := Summon(catalog, numGachas, randoms).value;
    assert EndIndex(g) <= numGachas * GachaSize by {
      assert (numGachas - g) * GachaSize >= GachaSize;
    }
    var report := ReportFor(results, g);
    assert report.shown == BatchWindow(results, g);
    forall j | 0 <= j < GachaSize
      ensures WeightedRandomChoice(catalog, randoms[g * GachaSize + j]) == Some(report.shown[j])
    {
      assert report.shown[j] == results[g * GachaSize + j];
    }
  }
}
