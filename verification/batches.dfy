/** The 11-draw gacha windows of the results and the cumulative prefix that
    the report tallies after each gacha. */
module Batches {
  import opened Catalog
  import opened Tally

  /** Draws per gacha. */
  const GachaSize: nat := 11

  /** `Array.prototype.slice(start, end)` for non-negative arguments: both
      bounds are clamped to the length and an end before the start gives the
      empty slice. */
  function Slice<T>(s: seq<T>, start: nat, end: nat): (part: seq<T>)
    ensures start <= end <= |s| ==> part == s[start..end]
    ensures |part| <= |s|
    ensures end <= start ==> part == []
  {
    var lo := if start < |s| then start else |s|;
    var hi := if end < lo then lo else if end < |s| then end else |s|;
    s[lo..hi]
  }

  /** Slicing [a, c) is slicing [a, b) followed by [b, c). */
  lemma SliceSplit<T>(s: seq<T>, a: nat, b: nat, c: nat)
    requires a <= b <= c
    ensures Slice(s, a, c) == Slice(s, a, b) + Slice(s, b, c)
  {
  }

  /** `endIndex`: one past the last draw of gacha `gachaIndex`. */
  function EndIndex(gachaIndex: nat): nat
  {
    gachaIndex * GachaSize + GachaSize
  }

  /** `currentResults`: the draws of gacha `gachaIndex`, [g * 11, g * 11 + 11). */
  function BatchWindow(results: seq<Item>, gachaIndex: nat): (window: seq<Item>)
    ensures EndIndex(gachaIndex) <= |results| ==>
      |window| == GachaSize
      && forall j :: 0 <= j < GachaSize ==> window[j] == results[gachaIndex * GachaSize + j]
    ensures forall p :: gachaIndex * GachaSize <= p < |results| && p < EndIndex(gachaIndex) ==>
      p - gachaIndex * GachaSize < |window| && window[p - gachaIndex * GachaSize] == results[p]
  {
    Slice(results, gachaIndex * GachaSize, EndIndex(gachaIndex))
  }

  /** `results.slice(0, endIndex)`: every draw up to the end of gacha
      `gachaIndex`. */
  function ReportedPrefix(results: seq<Item>, gachaIndex: nat): (prefix: seq<Item>)
    ensures EndIndex(gachaIndex) <= |results| ==> prefix == results[..EndIndex(gachaIndex)]
    ensures |prefix| <= EndIndex(gachaIndex)
    ensures prefix <= results
  {
    Slice(results, 0, EndIndex(gachaIndex))
  }

  /** Index `p` lies in the window of gacha `g` exactly when `p / 11 == g`:
      windows are disjoint and every index has one, so the windows 0..k
      tile [0, (k + 1) * 11). */
  lemma WindowOfIndex(p: nat, g: nat)
    ensures g * GachaSize <= p < EndIndex(g) <==> p / GachaSize == g
  {
  }

  /** The cumulative prefix up to gacha `k` is the windows 0..k laid end to
      end, first to last. */
  lemma {:induction false} PrefixIsWindows(results: seq<Item>, k: nat)
    ensures k == 0 ==> ReportedPrefix(results, k) == BatchWindow(results, 0)
    ensures k > 0 ==>
      ReportedPrefix(results, k) == ReportedPrefix(results, k - 1) + BatchWindow(results, k)
  {
    if k > 0 {
      SliceSplit(results, 0, EndIndex(k - 1), EndIndex(k));
    }
  }

  /** The per-grade sum of the tallies of windows 0..k. */
  function SumOfBatchTallies(results: seq<Item>, k: nat): map<string, nat>
  {
    if k == 0 then GradeCounts(BatchWindow(results, 0))
    else AddTallies(SumOfBatchTallies(results, k - 1), GradeCounts(BatchWindow(results, k)))
  }

  /** The cumulative tally printed after gacha `k` ("Final Summary") equals
      the per-grade sum of the per-gacha tallies 0..k ("Summary for gacha"). */
  lemma {:induction false} CumulativeTallyIsSumOfBatches(results: seq<Item>, k: nat)
    ensures GradeCounts(ReportedPrefix(results, k)) == SumOfBatchTallies(results, k)
  {
    PrefixIsWindows(results, k);
    if k > 0 {
      var before, window := ReportedPrefix(results, k - 1), BatchWindow(results, k);
      CumulativeTallyIsSumOfBatches(results, k - 1);
      TallyOfAppend(before, window);
      calc {
        GradeCounts(ReportedPrefix(results, k));
        GradeCounts(before + window);
        AddTallies(GradeCounts(before), GradeCounts(window));
        AddTallies(SumOfBatchTallies(results, k - 1), GradeCounts(window));
      }
    }
  }
}
