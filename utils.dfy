/**
 * The helpers of `utils.py` the front ends share: the tolerant two-digit
 * formatting of group and task numbers and the layout of the image folder.
 */
module Utils {
  import opened Wrappers
  import opened Text
  import opened PyFormat
  import Flet

  /** `format_value`: `f"{int(value):02d}"`, or the value itself when `int` raises. */
  function FormatValue(value: string): string {
    match ParseInt(value)
    case Some(n) => FormatInt(n, Spec(true, 2))
    case None => value
  }

  /**
   * An integer keeps all its digits and gains a leading zero only when it has
   * one digit; it reads back as the same integer; other text comes back as it
   * was.
   */
  lemma FormatValueSpec(value: string)
    ensures ParseInt(value).Some? ==> ParseInt(FormatValue(value)) == ParseInt(value)
    ensures ParseInt(value).Some? && ParseInt(value).value >= 0 ==>
              var n: nat := ParseInt(value).value;
              FormatValue(value) == (if n < 10 then "0" else "") + NatToString(n)
    ensures ParseInt(value).None? ==> FormatValue(value) == value
  {
    if ParseInt(value).Some? {
      var n := ParseInt(value).value;
      ParseFormatInt(n, Spec(true, 2));
      if n >= 0 { TwoDigitsOf(n); }
    }
  }

  /** Formatting a formatted value changes nothing. */
  lemma FormatValueIdempotent(value: string)
    ensures FormatValue(FormatValue(value)) == FormatValue(value)
  {
    FormatValueSpec(value);
  }

  /** Both versions agree on integers; on other text this one keeps the text where the Flet one gives "00". */
  lemma FormatValueAgrees(value: string)
    ensures ParseInt(value).Some? ==> FormatValue(value) == Flet.FormatValue(Some(value))
    ensures ParseInt(value).None? ==> Flet.FormatValue(Some(value)) == "00" && FormatValue(value) == value
  {
  }

  /** `Constants.DEFAULT_VISCO_TECH_PATH`. */
  const DefaultViscoTechPath := "C:\\viscotech\\task"

  /**
   * The path `find_img_folder` builds, with `sep` the separator `pathlib`
   * joins with: `base/task/g{group}/{task}/img` for a non-empty base, and
   * the default task folder followed by `g{group}/{task}/img` otherwise.
   */
  function ImgPath(base: Option<string>, group: string, task: string, sep: char): string {
    var root := if base.Some? && base.value != "" then base.value + [sep] + "task" else DefaultViscoTechPath;
    root + [sep] + "g" + group + [sep] + task + [sep] + "img"
  }

  /** `find_img_folder`: the built path when it exists, else `None`; `pathExists` stands for `Path.exists`. */
  function FindImgFolder(base: Option<string>, group: string, task: string, sep: char,
                         pathExists: string -> bool): (r: Option<string>)
    ensures r.None? <==> !pathExists(ImgPath(base, group, task, sep))
    ensures r.Some? ==> r.value == ImgPath(base, group, task, sep)
  {
    var path := ImgPath(base, group, task, sep);
    if pathExists(path) then Some(path) else None
  }

  /**
   * Without a base and with the Windows separator, the folder is the one the
   * Flet OK button builds from the same two numbers.
   */
  lemma DefaultFolderAgrees(group: string, task: string)
    ensures ImgPath(None, group, task, '\\') == Flet.Option1Path(group, task)
    ensures ImgPath(Some(""), group, task, '\\') == Flet.Option1Path(group, task)
  {
  }

  /**
   * With a base the path lies under `base/task`, and the three components
   * after it are `g{group}`, the task and `img`.
   */
  lemma BasePathLayout(base: string, group: string, task: string, sep: char)
    requires base != ""
    ensures var p := ImgPath(Some(base), group, task, sep);
            var prefix := base + [sep] + "task" + [sep];
            |prefix| <= |p| && p[..|prefix|] == prefix &&
            p[|prefix|..] == "g" + group + [sep] + task + [sep] + "img"
  {
    var prefix := base + [sep] + "task" + [sep];
    var p := ImgPath(Some(base), group, task, sep);
    assert p == prefix + ("g" + group + [sep] + task + [sep] + "img");
  }
}
