/**
 * Choosing the new name of one image: the template chosen by the comment and
 * the tool comment (`is_image_capture_format`, `generate_new_file_name`), and
 * the suffix loop that steps past names already in the output folder.
 */
module Naming {
  import opened Wrappers
  import opened Text
  import opened Template
  import opened Scanner

  /** The tool-comment prefix of an image-capture step. */
  const CapturePrefix := "画像取込"

  /** `is_image_capture_format`: a text that is exactly `画像取込` and two digits. */
  predicate IsImageCaptureFormat(tool: Option<string>) {
    tool.Some? && |tool.value| == 6 && tool.value[..4] == CapturePrefix &&
    IsDigit(tool.value[4]) && IsDigit(tool.value[5])
  }

  /** The capture format is the prefix followed by a two-digit text, and nothing else. */
  lemma CaptureFormatOf(d: string)
    ensures IsImageCaptureFormat(Some(CapturePrefix + d)) <==> |d| == 2 && IsDigits(d)
  {
    var t := CapturePrefix + d;
    assert t[..4] == CapturePrefix;
    if |d| == 2 {
      assert t[4] == d[0] && t[5] == d[1];
    }
  }

  /** Every text in the capture format splits into the prefix and its two digits. */
  lemma CaptureFormatSplit(t: string)
    requires IsImageCaptureFormat(Some(t))
    ensures t == CapturePrefix + t[4..] && IsDigits(t[4..]) && |t[4..]| == 2
  {
    assert t == t[..4] + t[4..];
  }

  // ---------------------------------------------------------------------
  // The template choice

  /** The `filename_templates` argument: `None`, or a dictionary whose values may be `None`. */
  type Templates = Option<map<string, Option<string>>>

  /** The three templates: `template1`, `template2` and `template3`. */
  datatype Choice = WithIndex | WithTool | OriginalName

  function KeyOf(c: Choice): string {
    match c
    case WithIndex => "template1"
    case WithTool => "template2"
    case OriginalName => "template3"
  }

  /** `"{comment}_{index}"`, `"{comment}_{tool}"` and `"{original}"`. */
  function DefaultOf(c: Choice): string {
    match c
    case WithIndex => PlaceholderText("comment", None) + ("_" + PlaceholderText("index", None))
    case WithTool => PlaceholderText("comment", None) + ("_" + PlaceholderText("tool", None))
    case OriginalName => PlaceholderText("original", None)
  }

  /** The dictionary used when no templates are given. */
  const Defaults: map<string, Option<string>> := map[
    "template1" := Some(DefaultOf(WithIndex)),
    "template2" := Some(DefaultOf(WithTool)),
    "template3" := Some(DefaultOf(OriginalName))]

  /** The template of a choice: the given dictionary's entry, else its default. */
  function TemplateOf(templates: Templates, c: Choice): (t: Option<string>)
    ensures templates.None? ==> t == Some(DefaultOf(c))
    ensures templates.Some? && KeyOf(c) !in templates.value ==> t == Some(DefaultOf(c))
    ensures templates.Some? && KeyOf(c) in templates.value ==> t == templates.value[KeyOf(c)]
  {
    var m := templates.GetOr(Defaults);
    if KeyOf(c) in m then m[KeyOf(c)] else Some(DefaultOf(c))
  }

  /**
   * The template choice: the first template for a commented image whose tool
   * comment is an image capture, the second for any other commented image,
   * the third without a comment.
   */
  function Choose(comment: string, tool: Option<string>): (c: Choice)
    ensures c == WithIndex <==> comment != "" && IsImageCaptureFormat(tool)
    ensures c == WithTool <==> comment != "" && !IsImageCaptureFormat(tool)
    ensures c == OriginalName <==> comment == ""
  {
    if comment != "" then
      if IsImageCaptureFormat(tool) then WithIndex else WithTool
    else OriginalName
  }

  /** `file_name.replace(".bmp", "")`: the stem used by `{original}` and by the suffix loop. */
  function Stem(fileName: string): string {
    ReplaceAll(fileName, ".bmp", "")
  }

  /** The `comment` of `img_info_dict.get('comment', '')`. */
  function CommentOf(info: Info): string {
    info.comment.GetOr("")
  }

  /** The six fields `generate_new_file_name` hands to the template engine. */
  function FieldsOf(info: Info, fileName: string, index: nat, tool: Option<string>, cam: string, div: string): Fields {
    Fields(Some(CommentOf(info)), tool, Some(Stem(fileName)), Some(cam), Some(div), Some(NatToString(index)))
  }

  /** `generate_new_file_name`: the chosen template rendered; always a safe name. */
  function NewFileName(info: Info, fileName: string, index: nat, tool: Option<string>,
                       cam: string, div: string, templates: Templates): (r: string)
    ensures IsSafeName(r)
  {
    var c := Choose(CommentOf(info), tool);
    Render(TemplateOf(templates, c), FieldsOf(info, fileName, index, tool, cam, div))
  }

  /**
   * `generate_new_file_name` as the copy helpers see it: a closure over the
   * `filename_templates` of the run, taking the image's information, its file
   * name, its position, its tool comment, its camera and its division.
   */
  type Generator = (Info, string, nat, Option<string>, string, string) -> string

  /** The closure for the given templates. */
  function GeneratorOf(templates: Templates): Generator {
    (info: Info, fileName: string, index: nat, tool: Option<string>, cam: string, div: string) =>
      NewFileName(info, fileName, index, tool, cam, div, templates)
  }

  /** A character other than `{` is copied and the rest of the template is processed. */
  lemma LiteralThen(c: char, tail: string, f: Fields)
    requires c != '{'
    ensures Substitute([c] + tail, f) == [c] + Substitute(tail, f)
  {
    assert ([c] + tail)[1..] == tail;
  }

  /** `{a}_{b}` renders as the two values joined by `_`. */
  lemma TwoFields(a: string, b: string, f: Fields)
    requires a in FieldNames && b in FieldNames
    ensures Substitute(PlaceholderText(a, None) + ("_" + PlaceholderText(b, None)), f) ==
            Lookup(f, a).value + ("_" + Lookup(f, b).value)
  {
    var tb := PlaceholderText(b, None);
    KnownPlaceholderValue(a, "_" + tb, f);
    LiteralThen('_', tb, f);
    assert tb == tb + "";
    KnownPlaceholderValue(b, "", f);
  }

  /**
   * With the default templates the new name is the sanitised comment and index,
   * the sanitised comment and tool comment, or the sanitised stem.
   */
  lemma DefaultNames(info: Info, fileName: string, index: nat, tool: Option<string>, cam: string, div: string)
    ensures var r := NewFileName(info, fileName, index, tool, cam, div, None);
            var comment := CommentOf(info);
            (comment != "" && IsImageCaptureFormat(tool) ==> r == Sanitize(comment + ("_" + NatToString(index)))) &&
            (comment != "" && !IsImageCaptureFormat(tool) ==> r == Sanitize(comment + ("_" + tool.GetOr("")))) &&
            (comment == "" ==> r == Sanitize(Stem(fileName)))
  {
    var f := FieldsOf(info, fileName, index, tool, cam, div);
    var c := Choose(CommentOf(info), tool);
    assert NewFileName(info, fileName, index, tool, cam, div, None) == Sanitize(Substitute(DefaultOf(c), f));
    DefaultSubstitution(c, f);
  }

  /** The three default templates, substituted. */
  lemma DefaultSubstitution(c: Choice, f: Fields)
    ensures c == WithIndex ==> Substitute(DefaultOf(c), f) == f.comment.GetOr("") + ("_" + f.index.GetOr(""))
    ensures c == WithTool ==> Substitute(DefaultOf(c), f) == f.comment.GetOr("") + ("_" + f.tool.GetOr(""))
    ensures c == OriginalName ==> Substitute(DefaultOf(c), f) == f.original.GetOr("")
  {
    match c {
      case WithIndex =>
        TwoFields("comment", "index", f);
      case WithTool =>
        TwoFields("comment", "tool", f);
      case OriginalName =>
        assert PlaceholderText("original", None) == PlaceholderText("original", None) + "";
        KnownPlaceholderValue("original", "", f);
    }
  }

  // ---------------------------------------------------------------------
  // Collision avoidance: `while exists(name + ".bmp"): name = name + "_" + stem`

  /** `k` copies of `_stem`. */
  function Suffixes(stem: string, k: nat): string {
    if k == 0 then "" else "_" + stem + Suffixes(stem, k - 1)
  }

  /** The names in the folder at least `n` characters long: they bound the loop. */
  function Longer(output: set<string>, n: nat): set<string> {
    set s | s in output && |s| >= n
  }

  lemma LongerShrinks(output: set<string>, a: string, b: string)
    requires a + ".bmp" in output && |b| > |a|
    ensures |Longer(output, |b| + 4)| < |Longer(output, |a| + 4)|
  {
    var big := Longer(output, |a| + 4);
    assert a + ".bmp" in big;
    SubsetCard(Longer(output, |b| + 4), big - {a + ".bmp"});
  }

  lemma {:induction false} SubsetCard<T>(a: set<T>, b: set<T>)
    requires a <= b
    ensures |a| <= |b|
    decreases |a|
  {
    if a != {} {
      var x :| x in a;
      SubsetCard(a - {x}, b - {x});
    }
  }

  /** The name the suffix loop stops at; its `.bmp` file is not in the folder. */
  function FreshFrom(name: string, stem: string, output: set<string>): (r: string)
    ensures r + ".bmp" !in output
    decreases |Longer(output, |name| + 4)|
  {
    if name + ".bmp" in output then
      LongerShrinks(output, name, name + "_" + stem);
      FreshFrom(name + "_" + stem, stem, output)
    else name
  }

  /** The number of suffixes the loop adds. */
  function FreshCount(name: string, stem: string, output: set<string>): nat
    decreases |Longer(output, |name| + 4)|
  {
    if name + ".bmp" in output then
      LongerShrinks(output, name, name + "_" + stem);
      1 + FreshCount(name + "_" + stem, stem, output)
    else 0
  }

  lemma {:induction false} FreshFromCount(name: string, stem: string, output: set<string>)
    ensures FreshFrom(name, stem, output) == name + Suffixes(stem, FreshCount(name, stem, output))
    ensures forall j: nat :: j < FreshCount(name, stem, output) ==> name + Suffixes(stem, j) + ".bmp" in output
    decreases |Longer(output, |name| + 4)|
  {
    if name + ".bmp" in output {
      var next := name + "_" + stem;
      LongerShrinks(output, name, next);
      FreshFromCount(next, stem, output);
      var k := FreshCount(next, stem, output);
      assert next + Suffixes(stem, k) == name + Suffixes(stem, k + 1);
      forall j: nat | j < k + 1
        ensures name + Suffixes(stem, j) + ".bmp" in output
      {
        if j > 0 {
          assert name + Suffixes(stem, j) == next + Suffixes(stem, j - 1);
        } else {
          assert name + Suffixes(stem, j) == name;
        }
      }
    } else {
      assert name + Suffixes(stem, 0) == name;
    }
  }

  /**
   * The loop's name is the first name followed by the fewest `_stem` suffixes
   * that give a name not yet in the folder.
   */
  lemma FreshFromLeast(name: string, stem: string, output: set<string>)
    ensures exists k: nat :: FreshFrom(name, stem, output) == name + Suffixes(stem, k) &&
                             name + Suffixes(stem, k) + ".bmp" !in output &&
                             forall j: nat :: j < k ==> name + Suffixes(stem, j) + ".bmp" in output
  {
    FreshFromCount(name, stem, output);
    var k := FreshCount(name, stem, output);
    assert FreshFrom(name, stem, output) == name + Suffixes(stem, k);
  }

  /** A name that is already free is kept. */
  lemma FreshFromFree(name: string, stem: string, output: set<string>)
    requires name + ".bmp" !in output
    ensures FreshFrom(name, stem, output) == name
  {
  }

  /** The suffix loop of `copy_files` and `copy_select_files`. */
  method UniqueName(name: string, stem: string, output: set<string>) returns (r: string)
    ensures r == FreshFrom(name, stem, output)
  {
    r := name;
    while r + ".bmp" in output
      invariant FreshFrom(r, stem, output) == FreshFrom(name, stem, output)
      decreases |Longer(output, |r| + 4)|
    {
      LongerShrinks(output, r, r + "_" + stem);
      r := r + "_" + stem;
    }
  }
}
