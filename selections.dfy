/**
 * The checkbox handlers that all three filter panels share. A category box
 * adds its id only when it is not selected yet; a brand box appends its name
 * as it is. Unchecking removes every copy. An absent or non-array list
 * (`None`) counts as empty.
 */
module Selections {
  import opened Wrappers
  import opened Seqs

  /** `handleCategoryChange(id, checked)` on the current list. */
  function ToggleUnique<T(==)>(current: Option<seq<T>>, x: T, checked: bool): (r: seq<T>)
    ensures checked ==> x in r && forall y :: y in current.GetOr([]) ==> y in r
    ensures !checked ==> x !in r
    ensures forall y :: y in r ==> y in current.GetOr([]) || (checked && y == x)
    ensures !checked ==> forall y :: y in current.GetOr([]) && y != x ==> y in r
  {
    var list := current.GetOr([]);
    if checked then AppendIfAbsent(list, x) else RemoveAll(list, x)
  }

  /** A duplicate-free selection stays duplicate-free, whichever box is clicked. */
  lemma ToggleUniqueKeepsNoDuplicates<T>(current: Option<seq<T>>, x: T, checked: bool)
    requires NoDuplicates(current.GetOr([]))
    ensures NoDuplicates(ToggleUnique(current, x, checked))
  {
    if checked {
      AppendIfAbsentKeepsNoDuplicates(current.GetOr([]), x);
    } else {
      RemoveAllKeepsNoDuplicates(current.GetOr([]), x);
    }
  }

  /** Checking a box that was not selected and unchecking it again gives the old list back. */
  lemma ToggleUniqueUndo<T>(current: seq<T>, x: T)
    requires x !in current
    ensures ToggleUnique(Some(ToggleUnique(Some(current), x, true)), x, false) == current
  {
    RemoveAfterAppend(current, x);
  }

  /** `handleBrandChange(brand, checked)` on the current list. */
  function ToggleAppend<T(==)>(current: Option<seq<T>>, x: T, checked: bool): (r: seq<T>)
    ensures checked ==> multiset(r) == multiset(current.GetOr([])) + multiset{x}
    ensures checked ==> |r| == |current.GetOr([])| + 1 && r[|r| - 1] == x && r[..|r| - 1] == current.GetOr([])
    ensures !checked ==> x !in r && forall y :: y in current.GetOr([]) && y != x ==> y in r
    ensures !checked ==> forall y :: y in r ==> y in current.GetOr([])
  {
    var list := current.GetOr([]);
    if checked then list + [x] else RemoveAll(list, x)
  }

  /** Checking a brand that is already selected selects it twice. */
  lemma ToggleAppendDuplicates<T>(current: seq<T>, x: T)
    requires x in current
    ensures !NoDuplicates(ToggleAppend(Some(current), x, true))
  {
    var r := current + [x];
    var i :| 0 <= i < |current| && current[i] == x;
    assert r[i] == x && r[|current|] == x;
  }

  /** One uncheck removes every copy of a brand. */
  lemma ToggleAppendUndo<T>(current: seq<T>, x: T)
    ensures ToggleAppend(Some(ToggleAppend(Some(current), x, true)), x, false) == RemoveAll(current, x)
  {
    RemoveAllConcat(current, [x], x);
    assert RemoveAll([x], x) == [];
  }
}
