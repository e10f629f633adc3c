/**
 * The streak tally: a count of days drawn as groups of five marks, the
 * fifth of each group a slash across the other four.  Layout geometry is
 * not modelled; the jitter offsets are kept as the integer pairs they are.
 */
module Tally {
  import opened SwiftArith

  /** The sum of the marks in `groups`. */
  function Sum(groups: seq<int>): int {
    if groups == [] then 0 else Sum(groups[..|groups| - 1]) + groups[|groups| - 1]
  }

  lemma {:induction false} SumOfFives(n: nat)
    ensures Sum(seq(n, _ => 5)) == 5 * n
  {
    if n > 0 {
      assert seq(n, _ => 5)[..n - 1] == seq(n - 1, _ => 5);
      SumOfFives(n - 1);
    }
  }

  /**
   * `TallyMarksView.groups`: `count / 5` full groups and then the remainder,
   * if positive.  `Array(repeating:count:)` traps on a negative count, so
   * the view needs `count > -5`; a count from -4 to -1 draws nothing.
   */
  method Groups(count: int) returns (result: seq<int>)
    requires count > -5
    ensures forall i :: 0 <= i < |result| - 1 ==> result[i] == 5
    ensures |result| > 0 ==> 1 <= result[|result| - 1] <= 5
    ensures count >= 0 ==> Sum(result) == count && |result| == (count + 4) / 5
    ensures count <= 0 ==> result == []
  {
    var fullGroups := TruncDiv(count, 5);
    var remainder := TruncRem(count, 5);
    result := seq(fullGroups, _ => 5);
    SumOfFives(fullGroups);
    if remainder > 0 {
      assert Sum(result + [remainder]) == Sum(result) + remainder by {
        assert (result + [remainder])[..|result|] == result;
      }
      result := result + [remainder];
    }
  }

  /** A jitter offset, as (width, height). */
  datatype Jitter = Jitter(width: int, height: int)

  const Offsets: seq<Jitter> := [Jitter(-2, 2), Jitter(1, -1), Jitter(2, 1), Jitter(-1, -2)]

  /** `offset(for:)` of the group at `index`. */
  function OffsetFor(index: nat): Jitter {
    Offsets[TruncRem(index, |Offsets|)]
  }

  /** The offsets repeat every four groups and the first four are all different. */
  lemma OffsetPeriodic(index: nat)
    ensures OffsetFor(index + 4) == OffsetFor(index)
    ensures index < 4 ==> OffsetFor(index) == Offsets[index]
    ensures forall i, j :: 0 <= i < j < 4 ==> OffsetFor(i) != OffsetFor(j)
  {
    assert (index + 4) % 4 == index % 4;
  }

  /** What `TallyGroup(markCount:)` draws. */
  datatype Marks = Marks(vertical: nat, slash: bool)

  /** `TallyGroup`: up to four upright marks, and the slash for a full group. */
  function TallyGroup(markCount: nat): (m: Marks)
    ensures m.vertical <= 4
    ensures m.slash <==> markCount == 5
  {
    Marks(if markCount < 4 then markCount else 4, markCount == 5)
  }

  /** Every group of a tally shows as many marks as it counts: upright marks plus the slash. */
  lemma GroupsDrawTheirCount(groups: seq<int>, i: nat)
    requires forall k :: 0 <= k < |groups| ==> 1 <= groups[k] <= 5
    requires i < |groups|
    ensures TallyGroup(groups[i]).vertical + (if TallyGroup(groups[i]).slash then 1 else 0) == groups[i]
  {
  }
}
