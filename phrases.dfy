/**
 * The phrase catalog (`Phrases.all`) and the choice of today's phrase index:
 * a random index the user has not completed yet, or any index once all have
 * been used.  The catalog's contents are not part of the model; it is any
 * non-empty sequence of phrases.  `randomElement()` on a sequence `s` is
 * `s[pick % |s|]` for a caller-supplied `pick`.
 */
module Phrases {

  /** Indexing `Phrases.all` traps when it is empty. */
  predicate ValidCatalog(catalog: seq<string>) {
    |catalog| > 0
  }

  /** `Array(0..<count).filter { !used.contains($0) }`. */
  function AvailableIndices(count: nat, used: seq<int>): (r: seq<nat>)
    ensures forall i: int :: i in r <==> 0 <= i < count && i !in used
    ensures forall j, k :: 0 <= j < k < |r| ==> r[j] < r[k]
  {
    if count == 0 then []
    else
      var earlier := AvailableIndices(count - 1, used);
      assert forall j :: 0 <= j < |earlier| ==> earlier[j] in earlier;
      earlier + (if count - 1 in used then [] else [count - 1])
  }

  /** `s.randomElement()` on a non-empty sequence. */
  function RandomElement<T>(s: seq<T>, pick: nat): (x: T)
    requires |s| > 0
    ensures x in s
  {
    s[pick % |s|]
  }

  /** `availableIndices.randomElement() ?? allIndices.randomElement()!`. */
  function ChooseIndex(count: nat, used: seq<int>, pick: nat): (i: nat)
    requires count > 0
    ensures i < count
    ensures i !in used || forall j :: 0 <= j < count ==> j in used
  {
    var available := AvailableIndices(count, used);
    if |available| > 0 then RandomElement(available, pick)
    else
      var all := AvailableIndices(count, []);
      assert count - 1 in all;
      RandomElement(all, pick)
  }

  /** Every element of a sequence is what `randomElement()` returns for some pick. */
  lemma RandomElementReaches<T>(s: seq<T>, x: T)
    requires x in s
    ensures exists pick: nat :: RandomElement(s, pick) == x
  {
    var k :| 0 <= k < |s| && s[k] == x;
    assert RandomElement(s, k) == x;
  }

  /** Any unused index can be chosen, and once every index is used, any index can. */
  lemma ChooseIndexReaches(count: nat, used: seq<int>, i: nat)
    requires i < count
    requires i !in used || (forall j :: 0 <= j < count ==> j in used)
    ensures exists pick: nat :: ChooseIndex(count, used, pick) == i
  {
    if |AvailableIndices(count, used)| > 0 {
      ReachesUnused(count, used, i);
    } else {
      ReachesAny(count, used, i);
    }
  }

  lemma ReachesUnused(count: nat, used: seq<int>, i: nat)
    requires i < count && |AvailableIndices(count, used)| > 0
    requires i !in used || (forall j :: 0 <= j < count ==> j in used)
    ensures exists pick: nat :: ChooseIndex(count, used, pick) == i
  {
    var available := AvailableIndices(count, used);
    assert available[0] in available;
    assert i in available;
    var k := IndexOf(available, i);
    ModOfSmaller(k, |available|);
    assert RandomElement(available, k) == i;
    assert ChooseIndex(count, used, k) == i;
  }

  lemma ReachesAny(count: nat, used: seq<int>, i: nat)
    requires i < count && |AvailableIndices(count, used)| == 0
    ensures exists pick: nat :: ChooseIndex(count, used, pick) == i
  {
    var all := AvailableIndices(count, []);
    assert i in all;
    var k := IndexOf(all, i);
    ModOfSmaller(k, |all|);
    assert RandomElement(all, k) == i;
    assert ChooseIndex(count, used, k) == i;
  }

  lemma ModOfSmaller(k: nat, n: nat)
    requires k < n
    ensures k % n == k
  {
  }

  /** A position at which `x` occurs in `s`. */
  lemma IndexOf(s: seq<nat>, x: nat) returns (k: nat)
    requires x in s
    ensures k < |s| && s[k] == x
  {
    k :| 0 <= k < |s| && s[k] == x;
  }

  /** With three phrases of which 0 and 1 are used, index 2 is chosen whatever the pick. */
  lemma OnlyCandidateIsChosen(pick: nat)
    ensures ChooseIndex(3, [0, 1], pick) == 2
  {
  }
}
