/**
 * The value-level logic of the Flet front end: the two-digit group and task
 * numbers and the check the OK button makes with them, the list of unknown
 * placeholders shown under the template fields, and the state of the camera
 * selection dialog.
 */
module Flet {
  import opened Wrappers
  import opened Text
  import opened PyFormat
  import opened Template
  import opened Coords
  import opened Cameras

  // ---------------------------------------------------------------------
  // Group and task numbers

  /** The format `02`: zero padding to width 2. */
  const TwoDigits := Spec(true, 2)

  /**
   * `format_value`: `f"{int(value):02}"`, or `"00"` when `int` raises
   * (`ValueError` for text that is not an integer, `TypeError` for `None`).
   */
  function FormatValue(value: Option<string>): (r: string)
    ensures |r| >= 2
  {
    if value.None? then "00"
    else
      match ParseInt(value.value)
      case Some(n) => FormatInt(n, TwoDigits)
      case None => "00"
  }

  /** `int("00")` is 0. */
  lemma ParseDoubleZero()
    ensures ParseInt("00") == Some(0)
  {
    ParseZeros('0');
  }

  lemma ParseZeros(z: char)
    requires z == '0'
    ensures ParseInt([z, z]) == Some(0)
  {
    var s := [z, z];
    assert IsDigits(s);
    ParseSigned(false, s);
    assert "" + s == s;
    assert s[..1][..0] == [] && s[..1][0] == z;
    assert DigitsValue(s[..1]) == 0;
    assert DigitsValue(s) == DigitsValue(s[..1]) * 10 + DigitValue(z);
  }

  /**
   * `"00"` comes out exactly for a missing value, text that is not an
   * integer, and the integer 0: the value the OK button rejects.
   */
  lemma FormatValueZero(value: Option<string>)
    ensures FormatValue(value) == "00" <==>
            value.None? || ParseInt(value.value).None? || ParseInt(value.value) == Some(0)
  {
    if value.Some? && ParseInt(value.value).Some? {
      var n := ParseInt(value.value).value;
      if n == 0 {
        ZeroFormatted();
      } else {
        FormatNotZero(n);
      }
    }
  }

  /** Only 0 formats to `"00"`. */
  lemma FormatNotZero(n: int)
    requires n != 0
    ensures FormatInt(n, TwoDigits) != "00"
  {
    ParseFormatInt(n, TwoDigits);
    ParseDoubleZero();
  }

  /** An integer reads back from its formatted value. */
  lemma FormatValueRoundTrip(value: Option<string>, n: int)
    requires value.Some? && ParseInt(value.value) == Some(n)
    ensures ParseInt(FormatValue(value)) == Some(n)
  {
    ParseFormatInt(n, TwoDigits);
  }

  /** A non-negative integer comes out as its digits, with one leading zero when it has only one. */
  lemma FormatValueDigits(value: Option<string>, n: nat)
    requires value.Some? && ParseInt(value.value) == Some(n)
    ensures FormatValue(value) == (if n < 10 then "0" else "") + NatToString(n)
  {
    TwoDigitsOf(n);
  }

  /** Formatting a formatted value changes nothing. */
  lemma FormatValueIdempotent(value: Option<string>)
    ensures FormatValue(Some(FormatValue(value))) == FormatValue(value)
  {
    if value.Some? && ParseInt(value.value).Some? {
      FormatValueRoundTrip(value, ParseInt(value.value).value);
    } else {
      ParseDoubleZero();
      ZeroFormatted();
    }
  }

  /** `f"{0:02}"` is `"00"`. */
  lemma ZeroFormatted()
    ensures FormatInt(0, TwoDigits) == "00"
  {
    TwoDigitsOf(0);
    assert NatToString(0) == "0";
  }

  // ---------------------------------------------------------------------
  // The OK button with the first option (group and task numbers)

  /** What `on_ok_click` does with a group and task number. */
  datatype Start =
    | Ignored          // a dialog is already open
    | NeedOutput       // no output folder chosen
    | NeedNumbers      // the group or the task number formats to "00"
    | NoImgFolder      // the built path does not exist
    | ImgFolder(path: string)  // the settings dialog opens on this folder

  /** The fixed location of the task folders. */
  const TaskRoot := "C:\\viscotech\\task"

  /** `f"C:\\viscotech\\task\\g{group}\\{task}\\img"`. */
  function Option1Path(group: string, task: string): string {
    TaskRoot + "\\g" + group + "\\" + task + "\\img"
  }

  /** The checks of `on_ok_click` for the first option, before it opens the settings dialog; `pathExists` stands for `os.path.exists`. */
  function OkClick(dialogOpen: bool, output: string, group: Option<string>, task: Option<string>,
                   pathExists: string -> bool): Start
  {
    if dialogOpen then Ignored
    else if output == "" then NeedOutput
    else
      var g, t := FormatValue(group), FormatValue(task);
      if g == "00" || t == "00" then NeedNumbers
      else if !pathExists(Option1Path(g, t)) then NoImgFolder
      else ImgFolder(Option1Path(g, t))
  }

  /**
   * The first option's checks pass, and the settings dialog opens on an image
   * folder, exactly when no dialog is open, an output folder is chosen, both
   * numbers are integers other than 0, and the path built from their two-digit
   * forms exists; that path is the one the dialog gets.
   */
  lemma OkClickStarts(dialogOpen: bool, output: string, group: Option<string>, task: Option<string>,
                      pathExists: string -> bool)
    ensures var r := OkClick(dialogOpen, output, group, task, pathExists);
            var number := (v: Option<string>) => v.Some? && ParseInt(v.value).Some? && ParseInt(v.value) != Some(0);
            (r.ImgFolder? <==>
               !dialogOpen && output != "" && number(group) && number(task) &&
               pathExists(Option1Path(FormatValue(group), FormatValue(task)))) &&
            (r.ImgFolder? ==> r.path == Option1Path(FormatValue(group), FormatValue(task))) &&
            (r == NeedNumbers <==> !dialogOpen && output != "" && (!number(group) || !number(task)))
  {
    FormatValueZero(group);
    FormatValueZero(task);
  }

  // ---------------------------------------------------------------------
  // Unknown placeholders

  /** In strictly increasing order: sorted, without repeats. */
  predicate Increasing(s: seq<string>) {
    forall i, j :: 0 <= i < j < |s| ==> StrLess(s[i], s[j])
  }

  /** A text below every element of an increasing list can go in front. */
  lemma InFront(x: string, s: seq<string>)
    requires Increasing(s) && forall y :: y in s ==> StrLess(x, y)
    ensures Increasing([x] + s)
  {
    var r := [x] + s;
    forall i, j | 0 <= i < j < |r|
      ensures StrLess(r[i], r[j])
    {
      if i > 0 {
        assert r[i] == s[i - 1] && r[j] == s[j - 1];
      } else {
        assert r[j] in s;
      }
    }
  }

  /** `x` put into its place in an increasing list, unless it is there already. */
  function Insert(s: seq<string>, x: string): (r: seq<string>)
    requires Increasing(s)
    ensures Increasing(r) && forall y :: y in r <==> y in s || y == x
    decreases |s|
  {
    if s == [] then [x]
    else if x == s[0] then s
    else if StrLess(x, s[0]) then
      assert forall y :: y in s ==> StrLess(x, y) by {
        forall y | y in s ensures StrLess(x, y) {
          var j :| 0 <= j < |s| && s[j] == y;
          if j > 0 { StrLessTransitive(x, s[0], y); }
        }
      }
      InFront(x, s);
      [x] + s
    else
      StrLessTotal(x, s[0]);
      var rest := Insert(s[1..], x);
      assert forall y :: y in rest ==> StrLess(s[0], y) by {
        forall y | y in rest ensures StrLess(s[0], y) {
          if y != x {
            var j :| 0 <= j < |s[1..]| && s[1..][j] == y;
          }
        }
      }
      InFront(s[0], rest);
      assert s == [s[0]] + s[1..];
      [s[0]] + rest
  }

  /** `sorted({n for n in names if n not in allowed})`, built one name at a time. */
  function SortedUnknown(names: seq<string>): (r: seq<string>)
    ensures Increasing(r)
    ensures forall n :: n in r <==> n in names && n !in FieldNames
    decreases |names|
  {
    if names == [] then []
    else
      var rest := SortedUnknown(names[..|names| - 1]);
      var n := names[|names| - 1];
      assert names == names[..|names| - 1] + [n];
      if n in FieldNames then rest else Insert(rest, n)
  }

  /**
   * `extract_unknown_placeholders`: the names of the template's placeholders
   * that the engine does not know, each once, in sorted order; none for a
   * missing or empty template.
   */
  function UnknownPlaceholders(template: Option<string>): seq<string> {
    if template.None? || template.value == "" then []
    else SortedUnknown(PlaceholderNames(template.value))
  }

  /**
   * The list is increasing, and a name is in it exactly when some
   * placeholder of the template carries it and it is not one of the six
   * field names.
   */
  lemma UnknownPlaceholdersSpec(template: Option<string>)
    ensures Increasing(UnknownPlaceholders(template))
    ensures forall n :: n in UnknownPlaceholders(template) <==>
              template.Some? && n in PlaceholderNames(template.value) && n !in FieldNames
  {
    if template.Some? && template.value == "" {
      assert PlaceholderNames(template.value) == [];
    }
  }

  /** The list is the only increasing list with those members. */
  lemma {:induction false} IncreasingUnique(a: seq<string>, b: seq<string>)
    requires Increasing(a) && Increasing(b) && forall n :: n in a <==> n in b
    ensures a == b
    decreases |a|
  {
    SameMembersEmpty(a, b);
    if a != [] {
      assert a[0] in b && b[0] in a;
      IncreasingHead(b, a[0]);
      IncreasingHead(a, b[0]);
      StrLessIrreflexive(a[0]);
      if a[0] != b[0] {
        StrLessTransitive(a[0], b[0], a[0]);
      } else {
        forall n
          ensures n in a[1..] <==> n in b[1..]
        {
          IncreasingTail(a, n);
          IncreasingTail(b, n);
        }
        IncreasingUnique(a[1..], b[1..]);
        assert a == [a[0]] + a[1..] && b == [b[0]] + b[1..];
      }
    }
  }

  lemma SameMembersEmpty(a: seq<string>, b: seq<string>)
    requires forall n :: n in a <==> n in b
    ensures a == [] <==> b == []
  {
    if a != [] { assert a[0] in b; }
    if b != [] { assert b[0] in a; }
  }

  /** The head of an increasing list is below every other member. */
  lemma IncreasingHead(s: seq<string>, y: string)
    requires Increasing(s) && y in s
    ensures y == s[0] || StrLess(s[0], y)
  {
  }

  /** The tail of an increasing list holds every member but the head. */
  lemma IncreasingTail(s: seq<string>, y: string)
    requires Increasing(s) && s != []
    ensures y in s[1..] <==> y in s && y != s[0]
  {
    if y in s[1..] {
      var i :| 0 <= i < |s[1..]| && s[1..][i] == y;
      assert StrLess(s[0], s[i + 1]);
      StrLessIrreflexive(y);
    }
    if y in s && y != s[0] {
      var j :| 0 <= j < |s| && s[j] == y;
      assert s[1..][j - 1] == y;
    }
  }

  // ---------------------------------------------------------------------
  // The camera selection dialog

  /** The checkbox change of the Flet dialog: add when missing, remove when present. */
  function Toggle(items: seq<nat>, item: nat, value: bool): seq<nat> {
    if value then (if item in items then items else items + [item])
    else if item in items then RemoveFirst(items, item)
    else items
  }

  /**
   * A checkbox change leaves the item selected exactly when the box is now
   * ticked, touches no other item, and keeps a column without repeats so.
   */
  lemma ToggleSpec(items: seq<nat>, item: nat, value: bool)
    requires Distinct(items)
    ensures Distinct(Toggle(items, item, value))
    ensures forall y :: y in Toggle(items, item, value) <==> (if y == item then value else y in items)
  {
    if !value && item in items {
      RemoveFirstDistinct(items, item);
    }
  }

  /** The dialog of `show_camera_selection_dialog`. */
  class CameraDialog {
    /** `checkbox_params`: the column numbers of each camera, in first-seen order. */
    const columns: seq<seq<nat>>
    /** `selected_items`. */
    var selected: seq<seq<nat>>

    predicate Valid()
      reads this
    {
      |selected| == |columns|
    }

    /** The dialog for a camera list whose elements are pairs; every item starts selected. */
    constructor(cameras: seq<Coord>)
      requires AllPairs(cameras)
      ensures columns == ConvertArraysToParams(cameras).value.1
      ensures selected == columns && Valid()
    {
      var g := Group(cameras, |cameras|);
      columns := Values(g);
      selected := Values(g);
    }

    /** `on_checkbox_change`. */
    method OnCheckboxChange(index: nat, item: nat, value: bool)
      requires Valid() && index < |columns|
      modifies this
      ensures Valid()
      ensures selected == old(selected)[index := Toggle(old(selected)[index], item, value)]
    {
      if value {
        if item !in selected[index] {
          selected := selected[index := selected[index] + [item]];
        }
      } else if item in selected[index] {
        selected := selected[index := RemoveFirst(selected[index], item)];
      }
    }

    /** `select_all`: the column's selection becomes a copy of the column. */
    method SelectAll(index: nat)
      requires Valid() && index < |columns|
      modifies this
      ensures Valid()
      ensures selected == old(selected)[index := columns[index]]
    {
      selected := selected[index := columns[index]];
    }

    /** `deselect_all`: the column's selection becomes empty. */
    method DeselectAll(index: nat)
      requires Valid() && index < |columns|
      modifies this
      ensures Valid()
      ensures selected == old(selected)[index := []]
    {
      selected := selected[index := []];
    }

    /**
     * `on_camera_ok`: the pairs handed to `execute_image_processing` as the
     * preselected camera list, with `save_cam` set to "1".
     */
    method OnCameraOk() returns (pairs: seq<Coord>)
      requires Valid()
      ensures pairs == SelectedPairs(selected)
    {
      pairs := CollectPairs(selected);
    }
  }
}
