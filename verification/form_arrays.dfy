/**
 * The index rules of Angular's `FormArray`, shared by the dialogs that keep a
 * list of form groups: `at` and `removeAt` read a negative index from the end.
 */
module FormArrays {

  /** `_adjustIndex`: a negative index counts back from the end of the list. */
  function AdjustIndex(len: nat, index: int): int {
    if index < 0 then index + len else index
  }

  /** `at(index)` names an entry: the adjusted index is inside the list; otherwise it yields `undefined`. */
  predicate NamesEntry(len: nat, index: int) {
    0 <= AdjustIndex(len, index) < len
  }

  /**
   * `removeAt(index)`: the adjusted index, raised to 0 if still negative, names
   * the entry removed; an index past the end removes nothing.
   */
  function RemoveAt<T>(xs: seq<T>, index: int): (r: seq<T>)
    ensures var k := if AdjustIndex(|xs|, index) < 0 then 0 else AdjustIndex(|xs|, index);
      && (k < |xs| ==> |r| == |xs| - 1 && multiset(r) + multiset{xs[k]} == multiset(xs))
      && (k >= |xs| ==> r == xs)
    ensures NamesEntry(|xs|, index) ==>
      && (forall j :: 0 <= j < AdjustIndex(|xs|, index) ==> r[j] == xs[j])
      && (forall j :: AdjustIndex(|xs|, index) <= j < |r| ==> r[j] == xs[j + 1])
  {
    var adjusted := AdjustIndex(|xs|, index);
    var k := if adjusted < 0 then 0 else adjusted;
    if k < |xs| then
      assert xs == xs[..k] + [xs[k]] + xs[k + 1..];
      xs[..k] + xs[k + 1..]
    else xs
  }

  /** A negative index before the start still removes the first entry. */
  lemma RemoveAtFarNegativeRemovesFirst<T>(xs: seq<T>, index: int)
    requires xs != [] && index < -|xs|
    ensures RemoveAt(xs, index) == xs[1..]
  {
  }

  /** Removing at the length of a list that was just extended by one gives the list back. */
  lemma RemoveAtAfterAppend<T>(xs: seq<T>, x: T)
    ensures RemoveAt(xs + [x], |xs|) == xs
  {
    assert (xs + [x])[..|xs|] == xs;
  }
}
