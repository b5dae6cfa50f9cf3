/**
 * The state behind the tkinter camera dialog (`create_gui`): one column of
 * checkboxes per camera, the per-column selection the handlers edit in
 * place, and the result the OK and Cancel buttons leave behind.
 */
module Selection {
  import opened Wrappers
  import opened Coords
  import opened Cameras

  /**
   * The loop of `select_all`: each item of the column, in order, is appended
   * when it is not in the selection yet.
   */
  function AppendMissing(selected: seq<nat>, items: seq<nat>): seq<nat>
    decreases |items|
  {
    if items == [] then selected
    else AppendMissing(if items[0] in selected then selected else selected + [items[0]], items[1..])
  }

  /**
   * Selecting all keeps the selection as it was in front, adds exactly the
   * column's missing items, and adds no repeats.
   */
  lemma {:induction false} AppendMissingSpec(selected: seq<nat>, items: seq<nat>)
    ensures var r := AppendMissing(selected, items);
            |selected| <= |r| && r[..|selected|] == selected &&
            (forall y :: y in r <==> y in selected || y in items) &&
            (Distinct(selected) ==> Distinct(r))
    decreases |items|
  {
    if items != [] {
      var next := if items[0] in selected then selected else selected + [items[0]];
      AppendMissingSpec(next, items[1..]);
      assert items == [items[0]] + items[1..];
      var r := AppendMissing(selected, items);
      assert r[..|next|][..|selected|] == r[..|selected|];
      assert next[..|selected|] == selected;
    }
  }

  /** Selecting all in an emptied column gives back the column when it has no repeats. */
  lemma {:induction false} AppendMissingEmptied(items: seq<nat>)
    requires Distinct(items)
    ensures AppendMissing([], items) == items
  {
    var k := 0;
    while k < |items|
      invariant k <= |items|
      invariant AppendMissing(items[..k], items[k..]) == AppendMissing([], items)
    {
      assert items[k] !in items[..k];
      assert items[..k + 1] == items[..k] + [items[k]];
      assert items[k..][1..] == items[k + 1..];
      k := k + 1;
    }
    assert items[..k] == items;
  }

  /**
   * Ticking a box appends its item even when it is already selected, and
   * clearing it removes the first occurrence, so a tick and a clear restore
   * the selection's contents (and the selection itself when the item was
   * not selected before).
   */
  lemma TickThenClear(selected: seq<nat>, item: nat)
    ensures item in selected + [item]
    ensures multiset(RemoveFirst(selected + [item], item)) == multiset(selected)
    ensures item !in selected ==> RemoveFirst(selected + [item], item) == selected
  {
    RemoveFirstMultiset(selected + [item], item);
    if item !in selected {
      RemoveAppended(selected, item);
    }
  }

  lemma {:induction false} RemoveAppended(selected: seq<nat>, item: nat)
    requires item !in selected
    ensures RemoveFirst(selected + [item], item) == selected
  {
    if selected != [] {
      assert (selected + [item])[1..] == selected[1..] + [item];
      RemoveAppended(selected[1..], item);
    }
  }

  /** The window of `create_gui` while it is open, and after OK or Cancel closed it. */
  class Window {
    /** `checkbox_params`: the column numbers of each camera, in first-seen order. */
    const columns: seq<seq<nat>>
    /** `selected_items`: the checked items of each column, in the order they were checked. */
    var selected: seq<seq<nat>>
    /** `result`: `None` until OK stores the selected pairs. */
    var result: Option<seq<Coord>>
    /** Whether `root.destroy()` has not run yet. */
    var open: bool

    predicate Valid()
      reads this
    {
      |selected| == |columns|
    }

    /**
     * The window for a camera list whose elements are pairs (otherwise
     * `convert_arrays_to_params` raises before the window exists); every
     * item starts selected.
     */
    constructor(arrays: seq<Coord>)
      requires AllPairs(arrays)
      ensures columns == ConvertArraysToParams(arrays).value.1
      ensures selected == columns && result == None && open
      ensures Valid()
    {
      var g := Group(arrays, |arrays|);
      columns := Values(g);
      selected := Values(g);
      result := None;
      open := true;
    }

    /**
     * `on_checkbox_select`: a ticked box appends its item; a cleared box
     * removes the item's first occurrence, and raises `ValueError`, changing
     * nothing, when the item is not selected.
     */
    method OnCheckboxSelect(checked: bool, index: nat, item: nat) returns (err: Option<Error>)
      requires Valid() && index < |columns|
      modifies this
      ensures Valid()
      ensures checked ==> err == None && selected == old(selected)[index := old(selected)[index] + [item]]
      ensures !checked && item in old(selected)[index] ==>
                err == None && selected == old(selected)[index := RemoveFirst(old(selected)[index], item)]
      ensures !checked && item !in old(selected)[index] ==> err == Some(ValueError) && selected == old(selected)
      ensures result == old(result) && open == old(open)
    {
      err := None;
      if checked {
        selected := selected[index := selected[index] + [item]];
      } else if item in selected[index] {
        selected := selected[index := RemoveFirst(selected[index], item)];
      } else {
        err := Some(ValueError);
      }
    }

    /** `select_all`: every item of the column that is not selected yet is appended, in column order. */
    method SelectAll(index: nat)
      requires Valid() && index < |columns|
      modifies this
      ensures Valid()
      ensures selected == old(selected)[index := AppendMissing(old(selected)[index], columns[index])]
      ensures result == old(result) && open == old(open)
    {
      var items := columns[index];
      ghost var start := selected[index];
      var k := 0;
      while k < |items|
        invariant k <= |items| && Valid()
        invariant selected == old(selected)[index := selected[index]]
        invariant AppendMissing(selected[index], items[k..]) == AppendMissing(start, items)
        invariant result == old(result) && open == old(open)
      {
        assert items[k..][1..] == items[k + 1..];
        if items[k] !in selected[index] {
          selected := selected[index := selected[index] + [items[k]]];
        }
        k := k + 1;
      }
    }

    /** `deselect_all`: the column's selection becomes empty. */
    method DeselectAll(index: nat)
      requires Valid() && index < |columns|
      modifies this
      ensures Valid()
      ensures selected == old(selected)[index := []]
      ensures result == old(result) && open == old(open)
    {
      selected := selected[index := []];
    }

    /** `on_ok`: the result is the selected pairs, and the window closes. */
    method OnOk()
      requires Valid()
      modifies this
      ensures Valid()
      ensures result == Some(SelectedPairs(selected)) && !open
      ensures selected == old(selected)
    {
      var pairs := CollectPairs(selected);
      result := Some(pairs);
      open := false;
    }

    /** `on_cancel`: the result is `None`, and the window closes. */
    method OnCancel()
      requires Valid()
      modifies this
      ensures Valid()
      ensures result == None && !open
      ensures selected == old(selected)
    {
      result := None;
      open := false;
    }
  }
}
