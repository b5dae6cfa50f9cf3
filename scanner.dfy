/**
 * The metadata scanner (`process_file` with `should_save_file`): a walk over
 * the lines of one metadata file that remembers the last `Comment=` and
 * `Locked=` values and keeps each `FILE=` value the save mode accepts at that
 * line.
 */
module Scanner {
  import opened Wrappers
  import opened Text

  /** The comment that marks an image the capture software saved automatically. */
  const AutoSaved := "この画像は自動で保存されました。"

  /** `img_info_dict` of one metadata file: `None` where the key was never set. */
  datatype Info = Info(comment: Option<string>, lockMode: Option<string>, files: seq<string>)

  const Initial := Info(None, None, [])

  /** `line.replace(key, '').strip()`. */
  function ValueOf(line: string, key: string): string
    requires key != []
  {
    Strip(ReplaceAll(line, key, ""))
  }

  /** `should_save_file`: the save mode `"0"`, `"1"` or `"2"` against the state so far. */
  predicate ShouldSave(saveMode: string, comment: Option<string>, lockMode: Option<string>) {
    saveMode == "0" ||
    (saveMode == "1" && comment.Some? && comment.value != "" && comment.value != AutoSaved) ||
    (saveMode == "2" && lockMode == Some("1"))
  }

  /** One line: the three tests in the order of the source, each seeing the ones before. */
  function StepLine(st: Info, line: string, saveMode: string): (r: Info)
    ensures |st.files| <= |r.files| <= |st.files| + 1 && r.files[..|st.files|] == st.files
  {
    var comment := if Contains(line, "Comment=") then Some(ValueOf(line, "Comment=")) else st.comment;
    var lockMode := if Contains(line, "Locked=") then Some(ValueOf(line, "Locked=")) else st.lockMode;
    var keep := Contains(line, "FILE=") && ShouldSave(saveMode, comment, lockMode);
    Info(comment, lockMode, if keep then st.files + [ValueOf(line, "FILE=")] else st.files)
  }

  /** The state after the given lines, starting from `st`. */
  function ScanFrom(st: Info, lines: seq<string>, saveMode: string): Info
    decreases |lines|
  {
    if lines == [] then st
    else StepLine(ScanFrom(st, lines[..|lines| - 1], saveMode), lines[|lines| - 1], saveMode)
  }

  function Scan(lines: seq<string>, saveMode: string): Info {
    ScanFrom(Initial, lines, saveMode)
  }

  /** `process_file`, with the dictionary and the list as local state. */
  method ProcessFile(lines: seq<string>, saveMode: string) returns (info: Info)
    ensures info == Scan(lines, saveMode)
  {
    var comment: Option<string> := None;
    var lockMode: Option<string> := None;
    var fileNames: seq<string> := [];
    var i := 0;
    while i < |lines|
      invariant 0 <= i <= |lines|
      invariant Info(comment, lockMode, fileNames) == Scan(lines[..i], saveMode)
    {
      assert lines[..i + 1][..i] == lines[..i];
      var line := lines[i];
      if Contains(line, "Comment=") {
        comment := Some(ValueOf(line, "Comment="));
      }
      if Contains(line, "Locked=") {
        lockMode := Some(ValueOf(line, "Locked="));
      }
      if Contains(line, "FILE=") {
        var fileName := ValueOf(line, "FILE=");
        if ShouldSave(saveMode, comment, lockMode) {
          fileNames := fileNames + [fileName];
        }
      }
      i := i + 1;
    }
    assert lines[..i] == lines;
    return Info(comment, lockMode, fileNames);
  }

  // ---------------------------------------------------------------------
  // What the scan computes

  /** Scanning in two pieces is scanning the whole: nothing is reset in between. */
  lemma {:induction false} ScanAppend(st: Info, a: seq<string>, b: seq<string>, saveMode: string)
    ensures ScanFrom(st, a + b, saveMode) == ScanFrom(ScanFrom(st, a, saveMode), b, saveMode)
    decreases |b|
  {
    if b == [] {
      assert a + b == a;
    } else {
      assert (a + b)[..|a + b| - 1] == a + b[..|b| - 1];
      ScanAppend(st, a, b[..|b| - 1], saveMode);
    }
  }

  /** The last value given for a key in the lines, if any. */
  function LastValue(lines: seq<string>, key: string): Option<string>
    requires key != []
    decreases |lines|
  {
    if lines == [] then None
    else if Contains(lines[|lines| - 1], key) then Some(ValueOf(lines[|lines| - 1], key))
    else LastValue(lines[..|lines| - 1], key)
  }

  /** The remembered comment and lock mode are the last ones in the lines, whatever lay between. */
  lemma {:induction false} ScanRemembersLast(lines: seq<string>, saveMode: string)
    ensures Scan(lines, saveMode).comment == LastValue(lines, "Comment=")
    ensures Scan(lines, saveMode).lockMode == LastValue(lines, "Locked=")
    decreases |lines|
  {
    if lines != [] {
      ScanRemembersLast(lines[..|lines| - 1], saveMode);
    }
  }

  /** The `FILE=` values of the lines, in order. */
  function FileValues(lines: seq<string>): (r: seq<string>)
    decreases |lines|
  {
    if lines == [] then []
    else
      var init := FileValues(lines[..|lines| - 1]);
      var line := lines[|lines| - 1];
      if Contains(line, "FILE=") then init + [ValueOf(line, "FILE=")] else init
  }

  /** Save mode `"0"` keeps every `FILE=` value. */
  lemma {:induction false} SaveAllKeepsEvery(lines: seq<string>)
    ensures Scan(lines, "0").files == FileValues(lines)
    decreases |lines|
  {
    if lines != [] {
      SaveAllKeepsEvery(lines[..|lines| - 1]);
    }
  }

  /**
   * A kept `FILE=` line: the state that line sees, built from the lines before
   * it and the line itself, passes the mode.
   */
  predicate KeptAt(lines: seq<string>, i: nat, saveMode: string)
    requires i < |lines|
  {
    var seen := lines[..i + 1];
    Contains(lines[i], "FILE=") &&
    ShouldSave(saveMode, LastValue(seen, "Comment="), LastValue(seen, "Locked="))
  }

  /** The kept values: those of the `FILE=` lines whose state passes the mode, in order. */
  function KeptValues(lines: seq<string>, saveMode: string): seq<string>
    decreases |lines|
  {
    if lines == [] then []
    else
      var init := KeptValues(lines[..|lines| - 1], saveMode);
      if KeptAt(lines, |lines| - 1, saveMode) then init + [ValueOf(lines[|lines| - 1], "FILE=")] else init
  }

  /** The scan keeps exactly the values whose line's state passes the mode. */
  lemma {:induction false} ScanKeeps(lines: seq<string>, saveMode: string)
    ensures Scan(lines, saveMode).files == KeptValues(lines, saveMode)
    decreases |lines|
  {
    if lines != [] {
      var init := lines[..|lines| - 1];
      ScanKeeps(init, saveMode);
      ScanRemembersLast(init, saveMode);
      assert lines[..|lines| - 1 + 1] == lines;
      KeptValuesPrefix(lines, saveMode);
    }
  }

  lemma KeptValuesPrefix(lines: seq<string>, saveMode: string)
    requires lines != []
    ensures KeptValues(lines, saveMode) ==
            KeptValues(lines[..|lines| - 1], saveMode) +
            (if KeptAt(lines, |lines| - 1, saveMode) then [ValueOf(lines[|lines| - 1], "FILE=")] else [])
  {
  }

  /** Save mode `"2"` keeps only the values after a `Locked=1` with no other lock value since. */
  lemma SaveLockedOnly(lines: seq<string>, i: nat)
    requires i < |lines| && KeptAt(lines, i, "2")
    ensures LastValue(lines[..i + 1], "Locked=") == Some("1")
  {
  }

  /** Reading one more line is one more step. */
  lemma ScanSnoc(lines: seq<string>, line: string, saveMode: string)
    ensures Scan(lines + [line], saveMode) == StepLine(Scan(lines, saveMode), line, saveMode)
  {
    assert (lines + [line])[..|lines|] == lines;
  }

  /** One example line: its own key's value, and neither of the other two keys. */
  lemma ExampleLine(key: string, v: string, other1: string, k1: nat, other2: string, k2: nat)
    requires key != [] && v != [] && !IsSpace(v[0]) && !IsSpace(v[|v| - 1])
    requires forall i :: 0 <= i < |v| ==> v[i] != key[0]
    requires k1 < |other1| && forall i :: 0 <= i < |key + v| ==> (key + v)[i] != other1[k1]
    requires k2 < |other2| && forall i :: 0 <= i < |key + v| ==> (key + v)[i] != other2[k2]
    ensures Contains(key + v, key) && ValueOf(key + v, key) == v
    ensures !Contains(key + v, other1) && !Contains(key + v, other2)
  {
    KeyValue(key, v);
    MissingCharNotContained(key + v, other1, k1);
    MissingCharNotContained(key + v, other2, k2);
  }

  /** A `Comment=` line that holds neither other key. */
  lemma StepComment(st: Info, v: string, saveMode: string)
    requires Contains("Comment=" + v, "Comment=") && ValueOf("Comment=" + v, "Comment=") == v
    requires !Contains("Comment=" + v, "Locked=") && !Contains("Comment=" + v, "FILE=")
    ensures StepLine(st, "Comment=" + v, saveMode) == Info(Some(v), st.lockMode, st.files)
  {
  }

  /** A `Locked=` line that holds neither other key. */
  lemma StepLocked(st: Info, v: string, saveMode: string)
    requires Contains("Locked=" + v, "Locked=") && ValueOf("Locked=" + v, "Locked=") == v
    requires !Contains("Locked=" + v, "Comment=") && !Contains("Locked=" + v, "FILE=")
    ensures StepLine(st, "Locked=" + v, saveMode) == Info(st.comment, Some(v), st.files)
  {
  }

  /** A `FILE=` line that holds neither other key. */
  lemma StepFile(st: Info, v: string, saveMode: string)
    requires Contains("FILE=" + v, "FILE=") && ValueOf("FILE=" + v, "FILE=") == v
    requires !Contains("FILE=" + v, "Comment=") && !Contains("FILE=" + v, "Locked=")
    ensures StepLine(st, "FILE=" + v, saveMode) ==
            Info(st.comment, st.lockMode, if ShouldSave(saveMode, st.comment, st.lockMode) then st.files + [v] else st.files)
  {
  }

  /**
   * A five-line file: `Comment=foo`, `Locked=0`, `FILE=a.bmp`, a `Comment=`
   * with the automatic-save text, and `FILE=b.bmp`. So `a.bmp` is commented
   * and unlocked, and `b.bmp` was saved automatically. Mode `"0"` keeps both,
   * mode `"1"` only the commented one, mode `"2"` neither (nothing is locked).
   */
  lemma ScanExample(saveMode: string)
    requires saveMode in {"0", "1", "2"}
    ensures var lines := ["Comment=" + "foo"] + ["Locked=" + "0"] + ["FILE=" + "a.bmp"] + ["Comment=" + AutoSaved] + ["FILE=" + "b.bmp"];
            Scan(lines, saveMode).files ==
              if saveMode == "0" then ["a.bmp", "b.bmp"] else if saveMode == "1" then ["a.bmp"] else []
  {
    var l0, l1, l2, l3, l4 := "Comment=" + "foo", "Locked=" + "0", "FILE=" + "a.bmp", "Comment=" + AutoSaved, "FILE=" + "b.bmp";
    var kept := if saveMode == "2" then [] else ["a.bmp"];
    var st2 := Info(Some("foo"), Some("0"), kept);
    var st3 := Info(Some(AutoSaved), Some("0"), kept);
    ScanExampleHead(saveMode);
    ExampleComment(st2, AutoSaved, saveMode);
    ExampleStep([l0] + [l1] + [l2], l3, saveMode, st2, st3);
    ExampleFile(st3, "b.bmp", saveMode);
    assert ShouldSave(saveMode, st3.comment, st3.lockMode) == (saveMode == "0");
    ExampleStep([l0] + [l1] + [l2] + [l3], l4, saveMode, st3,
                Info(Some(AutoSaved), Some("0"), if saveMode == "0" then kept + ["b.bmp"] else kept));
  }

  /** The first three lines of the example: the commented, unlocked image. */
  lemma ScanExampleHead(saveMode: string)
    requires saveMode in {"0", "1", "2"}
    ensures Scan(["Comment=" + "foo"] + ["Locked=" + "0"] + ["FILE=" + "a.bmp"], saveMode) ==
            Info(Some("foo"), Some("0"), if saveMode == "2" then [] else ["a.bmp"])
  {
    var l0, l1, l2 := "Comment=" + "foo", "Locked=" + "0", "FILE=" + "a.bmp";
    var st0 := Info(Some("foo"), None, []);
    var st1 := Info(Some("foo"), Some("0"), []);
    ExampleComment(Initial, "foo", saveMode);
    ExampleStep([], l0, saveMode, Initial, st0);
    assert [] + [l0] == [l0];
    ExampleLocked(st0, saveMode);
    ExampleStep([l0], l1, saveMode, st0, st1);
    ExampleFile(st1, "a.bmp", saveMode);
    assert ShouldSave(saveMode, st1.comment, st1.lockMode) == (saveMode != "2");
    ExampleStep([l0] + [l1], l2, saveMode, st1, Info(Some("foo"), Some("0"), if saveMode == "2" then [] else ["a.bmp"]));
  }

  lemma ExampleStep(lines: seq<string>, line: string, saveMode: string, before: Info, after: Info)
    requires Scan(lines, saveMode) == before && StepLine(before, line, saveMode) == after
    ensures Scan(lines + [line], saveMode) == after
  {
    ScanSnoc(lines, line, saveMode);
  }

  lemma ExampleComment(st: Info, v: string, saveMode: string)
    requires v in {"foo", AutoSaved}
    ensures StepLine(st, "Comment=" + v, saveMode) == Info(Some(v), st.lockMode, st.files)
  {
    ExampleLine("Comment=", v, "Locked=", 0, "FILE=", 0);
    StepComment(st, v, saveMode);
  }

  lemma ExampleLocked(st: Info, saveMode: string)
    ensures StepLine(st, "Locked=" + "0", saveMode) == Info(st.comment, Some("0"), st.files)
  {
    ExampleLine("Locked=", "0", "Comment=", 0, "FILE=", 0);
    StepLocked(st, "0", saveMode);
  }

  lemma ExampleFile(st: Info, v: string, saveMode: string)
    requires v in {"a.bmp", "b.bmp"}
    ensures StepLine(st, "FILE=" + v, saveMode) ==
            Info(st.comment, st.lockMode, if ShouldSave(saveMode, st.comment, st.lockMode) then st.files + [v] else st.files)
  {
    ExampleLine("FILE=", v, "Comment=", 0, "Locked=", 1);
    StepFile(st, v, saveMode);
  }

  /** A line `key` + value, where the value holds no key and no surrounding spaces. */
  lemma KeyValue(key: string, v: string)
    requires key != [] && v != [] && !IsSpace(v[0]) && !IsSpace(v[|v| - 1])
    requires forall i :: 0 <= i < |v| ==> v[i] != key[0]
    ensures Contains(key + v, key) && ValueOf(key + v, key) == v
  {
    assert StartsWith(key + v, key);
    StartsWithContains(key + v, key);
    MissingCharNotContained(v, key, 0);
    ReplaceLeading(key, v);
    StripNoSpaceEnds(v);
  }
}
