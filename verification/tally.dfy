/** Grade tallies: the `reduce` that counts draw results per grade. */
module Tally {
  import opened Catalog

  /** The number of results whose grade is `grade` (the reference count). */
  function Count(results: seq<Item>, grade: string): nat
  {
    if |results| == 0 then 0
    else (if results[0].grade == grade then 1 else 0) + Count(results[1..], grade)
  }

  /** A grade's entry in a tally, absent entries reading as 0 (the source's
      `counts[grade] || 0`). */
  function CountOf(counts: map<string, nat>, grade: string): nat
  {
    if grade in counts then counts[grade] else 0
  }

  /** The sum of all counts in a tally. */
  ghost function MapSum(counts: map<string, nat>): nat
    decreases |counts|
  {
    if |counts| == 0 then 0
    else
      var g := PickKey(counts);
      counts[g] + MapSum(counts - {g})
  }

  /** Some key of a non-empty tally. */
  ghost function PickKey(counts: map<string, nat>): (g: string)
    requires |counts| > 0
    ensures g in counts
  {
    assert |counts.Keys| > 0;
    var g :| g in counts.Keys; g
  }

  /** The sum does not depend on which key is taken out first. */
  lemma {:induction false} MapSumRemove(counts: map<string, nat>, g: string)
    requires g in counts
    ensures MapSum(counts) == counts[g] + MapSum(counts - {g})
    decreases |counts|
  {
    var k := PickKey(counts);
    if k != g {
      var both := counts - {k} - {g};
      assert (counts - {g}) - {k} == both;
      MapSumRemove(counts - {k}, g);
      MapSumRemove(counts - {g}, k);
    }
  }

  /** One step of the fold: `counts[grade] = (counts[grade] || 0) + 1`. */
  function Bump(counts: map<string, nat>, grade: string): (bumped: map<string, nat>)
    ensures bumped.Keys == counts.Keys + {grade}
    ensures CountOf(bumped, grade) == CountOf(counts, grade) + 1
    ensures forall g :: g != grade ==> CountOf(bumped, g) == CountOf(counts, g)
    ensures MapSum(bumped) == MapSum(counts) + 1
  {
    BumpSum(counts, grade);
    counts[grade := CountOf(counts, grade) + 1]
  }

  /** Raising one count by one raises the sum by one. */
  lemma BumpSum(counts: map<string, nat>, grade: string)
    ensures MapSum(counts[grade := CountOf(counts, grade) + 1]) == MapSum(counts) + 1
  {
    var bumped := counts[grade := CountOf(counts, grade) + 1];
    MapSumRemove(bumped, grade);
    assert bumped - {grade} == counts - {grade};
    if grade in counts {
      MapSumRemove(counts, grade);
    } else {
      assert counts - {grade} == counts;
    }
  }

  /** The `reduce` over `results` starting from the tally `acc`. */
  function TallyFrom(acc: map<string, nat>, results: seq<Item>): (counts: map<string, nat>)
    ensures forall g :: CountOf(counts, g) == CountOf(acc, g) + Count(results, g)
    ensures forall g :: g in counts <==> g in acc || Count(results, g) > 0
    ensures MapSum(counts) == MapSum(acc) + |results|
    decreases |results|
  {
    if |results| == 0 then acc
    else TallyFrom(Bump(acc, results[0].grade), results[1..])
  }

  /** The per-grade tally of a slice of results, started from `{}`: each
      grade present in the slice maps to its number of occurrences, no other
      grade is present, and the counts add up to the slice length. */
  function GradeCounts(results: seq<Item>): (counts: map<string, nat>)
    ensures forall g :: g in counts <==> Count(results, g) > 0
    ensures forall g :: g in counts ==> counts[g] == Count(results, g)
    ensures MapSum(counts) == |results|
    ensures |results| == 0 ==> counts == map[]
  {
    TallyFrom(map[], results)
  }

  /** Counting over a concatenation adds the counts of the parts. */
  lemma {:induction false} CountAppend(a: seq<Item>, b: seq<Item>, grade: string)
    ensures Count(a + b, grade) == Count(a, grade) + Count(b, grade)
  {
    if |a| == 0 {
      assert a + b == b;
    } else {
      assert (a + b)[1..] == a[1..] + b;
      CountAppend(a[1..], b, grade);
    }
  }

  /** Per-grade sum of two tallies. */
  function AddTallies(a: map<string, nat>, b: map<string, nat>): (sum: map<string, nat>)
    ensures sum.Keys == a.Keys + b.Keys
    ensures forall g :: CountOf(sum, g) == CountOf(a, g) + CountOf(b, g)
  {
    map g | g in a.Keys + b.Keys :: CountOf(a, g) + CountOf(b, g)
  }

  /** The tally of a concatenation is the per-grade sum of the two tallies. */
  lemma TallyOfAppend(a: seq<Item>, b: seq<Item>)
    ensures GradeCounts(a + b) == AddTallies(GradeCounts(a), GradeCounts(b))
  {
    TallyOfAppendFromCounts(GradeCounts(a + b), GradeCounts(a), GradeCounts(b), a, b);
  }

  /** TallyOfAppend for any three tallies that count their slices, stated
      without the sums of counts so that the proof stays small. */
  lemma TallyOfAppendFromCounts(whole: map<string, nat>, left: map<string, nat>,
                                right: map<string, nat>, a: seq<Item>, b: seq<Item>)
    requires forall g :: CountOf(whole, g) == Count(a + b, g)
    requires forall g :: g in whole <==> Count(a + b, g) > 0
    requires forall g :: CountOf(left, g) == Count(a, g)
    requires forall g :: g in left <==> Count(a, g) > 0
    requires forall g :: CountOf(right, g) == Count(b, g)
    requires forall g :: g in right <==> Count(b, g) > 0
    ensures whole == AddTallies(left, right)
  {
    CountAppendAllGrades(a, b);
    TalliesEqual(whole, AddTallies(left, right));
  }

  /** CountAppend for every grade at once. */
  lemma CountAppendAllGrades(a: seq<Item>, b: seq<Item>)
    ensures forall g :: Count(a + b, g) == Count(a, g) + Count(b, g)
  {
    forall g
      ensures Count(a + b, g) == Count(a, g) + Count(b, g)
    {
      CountAppend(a, b, g);
    }
  }

  /** Two tallies with the same keys and the same counts are equal. */
  lemma TalliesEqual(x: map<string, nat>, y: map<string, nat>)
    requires forall g :: g in x <==> g in y
    requires forall g :: CountOf(x, g) == CountOf(y, g)
    ensures x == y
  {
    forall g | g in x
      ensures x[g] == y[g]
    {
      assert CountOf(x, g) == CountOf(y, g);
    }
  }
}
