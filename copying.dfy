/**
 * Copying the kept images of one metadata file into the output folder
 * (`copy_files` for camera mode `"0"`, `copy_select_files` for `"1"`). The
 * output folder is the set of names in it; a copy adds its target name.
 */
module Copying {
  import opened Wrappers
  import opened Text
  import opened Template
  import opened Coords
  import opened Scanner
  import opened Naming

  /** One `shutil.copy`: the source image and the name it gets in the output folder. */
  datatype Copy = Copy(source: string, target: string)

  /** The output folder's names and the copies made so far, in order. */
  datatype Out = Out(names: set<string>, copies: seq<Copy>)

  /** What the copy helpers read besides the image list. */
  datatype Env = Env(info: Info, tools: map<Coord, string>, ba: map<Coord, Coord>, generate: Generator)

  /** `cam_tool_comment_dict.get(get_converted_from_original(cam_div, mapping_BA))`. */
  function ToolOf(env: Env, cd: Coord): (r: Option<string>)
    ensures cd !in env.ba ==> r.None?
    ensures cd in env.ba ==> r == Get(env.tools, env.ba[cd])
  {
    match Get(env.ba, cd)
    case None => None
    case Some(conv) => Get(env.tools, conv)
  }

  /**
   * With the mapping that pairs the first file's coordinates `raw` with their
   * normalisation `norm` (`Prepare` gives `norm == Adjusted(raw)`), an image
   * whose coordinate is `raw[i]`, at its last position `i`, gets the tool
   * comment recorded for its normalised coordinate `norm[i]`, not for
   * `raw[i]`; a coordinate that is not among `raw` gets none.
   */
  lemma ToolOfNormalised(env: Env, raw: seq<Coord>, norm: seq<Coord>, i: nat, cd: Coord)
    requires |raw| == |norm| && env.ba == Pairing(raw, norm)
    requires i < |raw| && forall j :: i < j < |raw| ==> raw[j] != raw[i]
    ensures ToolOf(env, raw[i]) == Get(env.tools, norm[i])
    ensures cd !in raw ==> ToolOf(env, cd).None?
  {
    PairingAt(raw, norm, i);
    if cd !in raw {
      PairingKeys(raw, norm, cd);
    }
  }

  /** `cam_div[0] if len(cam_div) > 0 else ''`, as the template sees it. */
  function CamText(cd: Coord): string { if |cd| > 0 then NatToString(cd[0]) else "" }

  /** `cam_div[1] if len(cam_div) > 1 else ''`, as the template sees it. */
  function DivText(cd: Coord): string { if |cd| > 1 then NatToString(cd[1]) else "" }

  /** The name generated for the `index`-th kept image, before the suffix loop. */
  function PlannedName(env: Env, fileName: string, index: nat): string {
    var cd := FindCamAndDiv(fileName);
    env.generate(env.info, fileName, index, ToolOf(env, cd), CamText(cd), DivText(cd))
  }

  lemma PlannedNameOf(env: Env, fileName: string, index: nat, tool: Option<string>)
    requires tool == ToolOf(env, FindCamAndDiv(fileName))
    ensures var cd := FindCamAndDiv(fileName);
            env.generate(env.info, fileName, index, tool, CamText(cd), DivText(cd)) == PlannedName(env, fileName, index)
  {
  }

  /** The generated names of the kept images, each for its position counted from 1. */
  function PlannedNames(env: Env, files: seq<string>): (r: seq<string>)
    ensures |r| == |files|
  {
    seq(|files|, i requires 0 <= i < |files| => PlannedName(env, files[i], i + 1))
  }

  /** One copy: the generated name stepped past the names already there, with `.bmp`. */
  function CopyImage(out: Out, fileName: string, name: string): Out {
    var target := FreshFrom(name, Stem(fileName), out.names) + ".bmp";
    Out(out.names + {target}, out.copies + [Copy(fileName, target)])
  }

  /** `copy_files` over the first `n` kept images, under the given generated names. */
  function CopyAll(files: seq<string>, planned: seq<string>, n: nat, out: Out): Out
    requires n <= |files| == |planned|
  {
    if n == 0 then out else CopyImage(CopyAll(files, planned, n - 1, out), files[n - 1], planned[n - 1])
  }

  /** The result of a copy loop that may raise: what was copied before the error stays. */
  datatype Copied = Copied(out: Out, error: Option<Error>)

  /** An image whose coordinate has no normalised counterpart: `list(None)` raises. */
  predicate Unmapped(env: Env, fileName: string) {
    FindCamAndDiv(fileName) !in env.ba
  }

  /** `is_element_in_2d_array(list(converted), save_CAM_list)` for a mapped image. */
  predicate Selected(env: Env, selected: seq<Coord>, fileName: string) {
    FindCamAndDiv(fileName) in env.ba && env.ba[FindCamAndDiv(fileName)] in selected
  }

  /** `copy_select_files` over the first `n` kept images. */
  function CopySelect(env: Env, selected: seq<Coord>, files: seq<string>, planned: seq<string>, n: nat, out: Out): Copied
    requires n <= |files| == |planned|
  {
    if n == 0 then Copied(out, None)
    else
      var c := CopySelect(env, selected, files, planned, n - 1, out);
      if c.error.Some? then c
      else if Unmapped(env, files[n - 1]) then Copied(c.out, Some(TypeError))
      else if Selected(env, selected, files[n - 1]) then Copied(CopyImage(c.out, files[n - 1], planned[n - 1]), None)
      else c
  }

  // ---------------------------------------------------------------------
  // The loops

  /**
   * The body both loops share: the new name from the template, stepped past
   * the names already in the folder, and the copy under that name.
   */
  method CopyOne(env: Env, fileName: string, index: nat, tool: Option<string>, out: Out) returns (r: Out)
    requires tool == ToolOf(env, FindCamAndDiv(fileName))
    ensures r == CopyImage(out, fileName, PlannedName(env, fileName, index))
  {
    var cd := FindCamAndDiv(fileName);
    var name := env.generate(env.info, fileName, index, tool, CamText(cd), DivText(cd));
    PlannedNameOf(env, fileName, index, tool);
    var unique := UniqueName(name, Stem(fileName), out.names);
    r := Out(out.names + {unique + ".bmp"}, out.copies + [Copy(fileName, unique + ".bmp")]);
  }

  /** `copy_files`: every kept image, numbered from 1. */
  method CopyFiles(env: Env, out: Out) returns (r: Out)
    ensures r == CopyAll(env.info.files, PlannedNames(env, env.info.files), |env.info.files|, out)
  {
    var files := env.info.files;
    ghost var planned := PlannedNames(env, files);
    r := out;
    var i := 0;
    while i < |files|
      invariant 0 <= i <= |files|
      invariant r == CopyAll(files, planned, i, out)
    {
      var f := files[i];
      CopyAllNext(env, files, i, out, r);
      r := CopyOne(env, f, i + 1, ToolOf(env, FindCamAndDiv(f)), r);
      i := i + 1;
    }
  }

  /** One more image of `copy_files` is one more copy under its generated name. */
  lemma CopyAllNext(env: Env, files: seq<string>, i: nat, out: Out, r: Out)
    requires i < |files| && r == CopyAll(files, PlannedNames(env, files), i, out)
    ensures CopyAll(files, PlannedNames(env, files), i + 1, out) == CopyImage(r, files[i], PlannedName(env, files[i], i + 1))
  {
  }

  /** Once the select loop has raised, later images change nothing. */
  lemma {:induction false} CopySelectErrorStays(env: Env, selected: seq<Coord>, files: seq<string>, planned: seq<string>,
                                                 m: nat, n: nat, out: Out)
    requires m <= n <= |files| == |planned| && CopySelect(env, selected, files, planned, m, out).error.Some?
    ensures CopySelect(env, selected, files, planned, n, out) == CopySelect(env, selected, files, planned, m, out)
    decreases n
  {
    if n > m {
      CopySelectErrorStays(env, selected, files, planned, m, n - 1, out);
    }
  }

  /**
   * `copy_select_files`: the images whose normalised coordinate is selected,
   * numbered by their position among all kept images.
   */
  method CopySelectFiles(env: Env, selected: seq<Coord>, out: Out) returns (c: Copied)
    ensures c == CopySelect(env, selected, env.info.files, PlannedNames(env, env.info.files), |env.info.files|, out)
  {
    var files := env.info.files;
    ghost var planned := PlannedNames(env, files);
    var r := out;
    var i := 0;
    while i < |files|
      invariant 0 <= i <= |files|
      invariant CopySelect(env, selected, files, planned, i, out) == Copied(r, None)
    {
      var f := files[i];
      var conv := Get(env.ba, FindCamAndDiv(f));
      if conv.None? {
        CopySelectRaise(env, selected, files, planned, i, out);
        return Copied(r, Some(TypeError));
      }
      CopySelectNext(env, selected, files, i, out, r);
      if conv.value in selected {
        r := CopyOne(env, f, i + 1, Get(env.tools, conv.value), r);
      }
      i := i + 1;
    }
    return Copied(r, None);
  }

  /** An unmapped image, before any error: the loop raises and stops there. */
  lemma CopySelectRaise(env: Env, selected: seq<Coord>, files: seq<string>, planned: seq<string>, i: nat, out: Out)
    requires i < |files| == |planned|
    requires CopySelect(env, selected, files, planned, i, out).error.None? && Unmapped(env, files[i])
    ensures CopySelect(env, selected, files, planned, |files|, out) ==
            Copied(CopySelect(env, selected, files, planned, i, out).out, Some(TypeError))
  {
    CopySelectErrorStays(env, selected, files, planned, i + 1, |files|, out);
  }

  /** A mapped image, before any error: it is copied under its generated name when selected, and skipped otherwise. */
  lemma CopySelectNext(env: Env, selected: seq<Coord>, files: seq<string>, i: nat, out: Out, r: Out)
    requires i < |files| && !Unmapped(env, files[i])
    requires CopySelect(env, selected, files, PlannedNames(env, files), i, out) == Copied(r, None)
    ensures CopySelect(env, selected, files, PlannedNames(env, files), i + 1, out) ==
            if Selected(env, selected, files[i]) then Copied(CopyImage(r, files[i], PlannedName(env, files[i], i + 1)), None)
            else Copied(r, None)
  {
    var planned := PlannedNames(env, files);
    if Selected(env, selected, files[i]) {
      assert PlannedName(env, files[i], i + 1) == planned[i];
      CopySelectCopies(env, selected, files, planned, i, out);
    } else {
      CopySelectSkips(env, selected, files, planned, i, out);
    }
  }

  /** A selected image, before any error: it is copied. */
  lemma CopySelectCopies(env: Env, selected: seq<Coord>, files: seq<string>, planned: seq<string>, i: nat, out: Out)
    requires i < |files| == |planned|
    requires CopySelect(env, selected, files, planned, i, out).error.None? && Selected(env, selected, files[i])
    ensures CopySelect(env, selected, files, planned, i + 1, out) ==
            Copied(CopyImage(CopySelect(env, selected, files, planned, i, out).out, files[i], planned[i]), None)
  {
  }

  /** A mapped image that is not selected changes nothing. */
  lemma CopySelectSkips(env: Env, selected: seq<Coord>, files: seq<string>, planned: seq<string>, i: nat, out: Out)
    requires i < |files| == |planned|
    requires !Unmapped(env, files[i]) && !Selected(env, selected, files[i])
    ensures CopySelect(env, selected, files, planned, i + 1, out) == CopySelect(env, selected, files, planned, i, out)
  {
  }

  // ---------------------------------------------------------------------
  // No copy overwrites a file

  /** The names after the copies: the names before and every target. */
  function Placed(names: set<string>, cs: seq<Copy>): (r: set<string>)
    ensures names <= r
    decreases |cs|
  {
    if cs == [] then names else Placed(names, cs[..|cs| - 1]) + {cs[|cs| - 1].target}
  }

  /** Each copy's target is new: not in the folder before, and no earlier copy's target. */
  predicate NoOverwrite(names: set<string>, cs: seq<Copy>)
    decreases |cs|
  {
    cs == [] || (NoOverwrite(names, cs[..|cs| - 1]) && cs[|cs| - 1].target !in Placed(names, cs[..|cs| - 1]))
  }

  /** `b` is `a` followed by copies that overwrite nothing, and holds exactly their targets besides. */
  predicate Extends(a: Out, b: Out) {
    |a.copies| <= |b.copies| && b.copies[..|a.copies|] == a.copies &&
    NoOverwrite(a.names, b.copies[|a.copies|..]) && b.names == Placed(a.names, b.copies[|a.copies|..])
  }

  /** What `NoOverwrite` and `Placed` say of each copy. */
  lemma {:induction false} NoOverwriteMeans(names: set<string>, cs: seq<Copy>)
    requires NoOverwrite(names, cs)
    ensures forall i :: 0 <= i < |cs| ==> cs[i].target !in names
    ensures forall i, j :: 0 <= i < j < |cs| ==> cs[i].target != cs[j].target
    ensures Placed(names, cs) == names + set i | 0 <= i < |cs| :: cs[i].target
    decreases |cs|
  {
    if cs != [] {
      var init := cs[..|cs| - 1];
      NoOverwriteMeans(names, init);
      assert forall i :: 0 <= i < |init| ==> init[i] == cs[i];
      assert (set i | 0 <= i < |cs| :: cs[i].target) == (set i | 0 <= i < |init| :: init[i].target) + {cs[|cs| - 1].target};
    }
  }

  lemma ExtendsRefl(a: Out)
    ensures Extends(a, a)
  {
    assert a.copies[..|a.copies|] == a.copies;
    assert a.copies[|a.copies|..] == [];
  }

  /** One more copy to a name not yet in the folder keeps the extension. */
  lemma ExtendsCopy(a: Out, b: Out, c: Copy)
    requires Extends(a, b) && c.target !in b.names
    ensures Extends(a, Out(b.names + {c.target}, b.copies + [c]))
  {
    var cs := b.copies[|a.copies|..];
    var copies := b.copies + [c];
    assert copies[..|a.copies|] == a.copies;
    assert copies[|a.copies|..] == cs + [c];
    assert (cs + [c])[..|cs + [c]| - 1] == cs;
  }

  lemma {:induction false} PlacedAppend(names: set<string>, x: seq<Copy>, y: seq<Copy>)
    ensures Placed(names, x + y) == Placed(Placed(names, x), y)
    ensures NoOverwrite(names, x) && NoOverwrite(Placed(names, x), y) ==> NoOverwrite(names, x + y)
    decreases |y|
  {
    if y == [] {
      assert x + y == x;
    } else {
      var yi := y[..|y| - 1];
      PlacedAppend(names, x, yi);
      assert (x + y)[..|x + y| - 1] == x + yi;
    }
  }

  lemma ExtendsTrans(a: Out, b: Out, c: Out)
    requires Extends(a, b) && Extends(b, c)
    ensures Extends(a, c)
  {
    var x := b.copies[|a.copies|..];
    var y := c.copies[|b.copies|..];
    assert c.copies[..|b.copies|] == b.copies;
    assert c.copies[..|a.copies|] == b.copies[..|a.copies|];
    assert c.copies[|a.copies|..] == x + y;
    PlacedAppend(a.names, x, y);
  }

  /** A copy adds one target that was not yet there. */
  lemma CopyImageExtends(out: Out, fileName: string, name: string)
    ensures Extends(out, CopyImage(out, fileName, name))
  {
    ExtendsRefl(out);
    var target := FreshFrom(name, Stem(fileName), out.names) + ".bmp";
    ExtendsCopy(out, out, Copy(fileName, target));
  }

  // ---------------------------------------------------------------------
  // Which images are copied, and under which names

  /**
   * A copy realises a planned one: same source, and the planned name with
   * zero or more `_stem` suffixes, then `.bmp`.
   */
  ghost predicate Realises(p: Copy, c: Copy) {
    c.source == p.source &&
    exists k: nat :: c.target == p.target + Suffixes(Stem(p.source), k) + ".bmp"
  }

  ghost predicate Follows(plan: seq<Copy>, cs: seq<Copy>) {
    |plan| == |cs| && forall i :: 0 <= i < |cs| ==> Realises(plan[i], cs[i])
  }

  /** Every kept image with its generated name. */
  function Plan(files: seq<string>, planned: seq<string>, n: nat): (p: seq<Copy>)
    requires n <= |files| == |planned|
    ensures |p| == n
  {
    if n == 0 then [] else Plan(files, planned, n - 1) + [Copy(files[n - 1], planned[n - 1])]
  }

  /** The selected images with their generated names. */
  function SelectPlan(env: Env, selected: seq<Coord>, files: seq<string>, planned: seq<string>, n: nat): seq<Copy>
    requires n <= |files| == |planned|
  {
    if n == 0 then []
    else
      var p := SelectPlan(env, selected, files, planned, n - 1);
      if Selected(env, selected, files[n - 1]) then p + [Copy(files[n - 1], planned[n - 1])] else p
  }

  /** The sources of a list of copies. */
  function Sources(cs: seq<Copy>): (r: seq<string>)
    ensures |r| == |cs| && forall i :: 0 <= i < |cs| ==> r[i] == cs[i].source
  {
    if cs == [] then [] else Sources(cs[..|cs| - 1]) + [cs[|cs| - 1].source]
  }

  /** A copy made by `CopyImage` realises the planned copy of that image. */
  lemma CopyImageRealises(out: Out, fileName: string, name: string)
    ensures var r := CopyImage(out, fileName, name);
            |r.copies| == |out.copies| + 1 && r.copies[..|out.copies|] == out.copies &&
            Realises(Copy(fileName, name), r.copies[|out.copies|])
  {
    FreshFromLeast(name, Stem(fileName), out.names);
    var r := CopyImage(out, fileName, name);
    assert r.copies[..|out.copies|] == out.copies;
  }

  lemma FollowsSnoc(plan: seq<Copy>, cs: seq<Copy>, p: Copy, c: Copy)
    requires Follows(plan, cs) && Realises(p, c)
    ensures Follows(plan + [p], cs + [c])
  {
    assert forall i :: 0 <= i < |cs| ==> (cs + [c])[i] == cs[i] && (plan + [p])[i] == plan[i];
  }

  /** The copies after `out`'s, given the extension by one image. */
  lemma NewCopiesSnoc(out: Out, mid: Out, r: Out)
    requires |out.copies| <= |mid.copies| && mid.copies[..|out.copies|] == out.copies
    requires |r.copies| == |mid.copies| + 1 && r.copies[..|mid.copies|] == mid.copies
    ensures r.copies[|out.copies|..] == mid.copies[|out.copies|..] + [r.copies[|mid.copies|]]
  {
    assert r.copies == mid.copies + [r.copies[|mid.copies|]];
  }

  /** One more copy keeps the extension and follows the plan with that image added. */
  lemma CopyImageFollows(out: Out, mid: Out, plan: seq<Copy>, fileName: string, name: string)
    requires Extends(out, mid) && Follows(plan, mid.copies[|out.copies|..])
    ensures var r := CopyImage(mid, fileName, name);
            Extends(out, r) && Follows(plan + [Copy(fileName, name)], r.copies[|out.copies|..])
  {
    var r := CopyImage(mid, fileName, name);
    CopyImageRealises(mid, fileName, name);
    CopyImageExtends(mid, fileName, name);
    ExtendsTrans(out, mid, r);
    NewCopiesSnoc(out, mid, r);
    FollowsSnoc(plan, mid.copies[|out.copies|..], Copy(fileName, name), r.copies[|mid.copies|]);
  }

  /** `copy_files` copies every kept image, in order, under its generated name, and overwrites nothing. */
  lemma {:induction false} CopyAllFollows(files: seq<string>, planned: seq<string>, n: nat, out: Out)
    requires n <= |files| == |planned|
    ensures var r := CopyAll(files, planned, n, out);
            Extends(out, r) && Follows(Plan(files, planned, n), r.copies[|out.copies|..])
  {
    if n == 0 {
      ExtendsRefl(out);
      assert out.copies[|out.copies|..] == [];
    } else {
      CopyAllFollows(files, planned, n - 1, out);
      CopyImageFollows(out, CopyAll(files, planned, n - 1, out), Plan(files, planned, n - 1), files[n - 1], planned[n - 1]);
    }
  }

  /** The select loop raises exactly when some kept image is unmapped, and then a `TypeError`. */
  lemma {:induction false} CopySelectError(env: Env, selected: seq<Coord>, files: seq<string>, planned: seq<string>, n: nat, out: Out)
    requires n <= |files| == |planned|
    ensures var c := CopySelect(env, selected, files, planned, n, out);
            (c.error.Some? <==> exists j :: 0 <= j < n && Unmapped(env, files[j])) &&
            (c.error.Some? ==> c.error == Some(TypeError))
  {
    if n > 0 {
      CopySelectError(env, selected, files, planned, n - 1, out);
    }
  }

  /**
   * `copy_select_files` copies exactly the selected images, in order, under
   * their generated names, and overwrites nothing; when it raises, the
   * images before the first unmapped one were copied so.
   */
  lemma {:induction false} CopySelectFollows(env: Env, selected: seq<Coord>, files: seq<string>, planned: seq<string>,
                                              n: nat, out: Out)
    requires n <= |files| == |planned|
    ensures var c := CopySelect(env, selected, files, planned, n, out);
            Extends(out, c.out) &&
            Follows(SelectPlan(env, selected, files, planned, FirstUnmapped(env, files, n)), c.out.copies[|out.copies|..])
  {
    if n == 0 {
      ExtendsRefl(out);
      assert out.copies[|out.copies|..] == [];
    } else {
      CopySelectFollows(env, selected, files, planned, n - 1, out);
      CopySelectFollowsStep(env, selected, files, planned, n, out, CopySelect(env, selected, files, planned, n - 1, out));
    }
  }

  /** One more image, given the images before it. */
  lemma CopySelectFollowsStep(env: Env, selected: seq<Coord>, files: seq<string>, planned: seq<string>,
                              n: nat, out: Out, c: Copied)
    requires 0 < n <= |files| == |planned| && c == CopySelect(env, selected, files, planned, n - 1, out)
    requires Extends(out, c.out)
    requires Follows(SelectPlan(env, selected, files, planned, FirstUnmapped(env, files, n - 1)), c.out.copies[|out.copies|..])
    ensures var r := CopySelect(env, selected, files, planned, n, out);
            Extends(out, r.out) &&
            Follows(SelectPlan(env, selected, files, planned, FirstUnmapped(env, files, n)), r.out.copies[|out.copies|..])
  {
    CopySelectError(env, selected, files, planned, n - 1, out);
    FirstUnmappedAt(env, files, n - 1);
    if c.error.None? && !Unmapped(env, files[n - 1]) && Selected(env, selected, files[n - 1]) {
      CopyImageFollows(out, c.out, SelectPlan(env, selected, files, planned, n - 1), files[n - 1], planned[n - 1]);
    }
  }

  /** The number of kept images before the first unmapped one (all `n` if none is). */
  function FirstUnmapped(env: Env, files: seq<string>, n: nat): (m: nat)
    requires n <= |files|
    ensures m <= n
    ensures forall j :: 0 <= j < m ==> !Unmapped(env, files[j])
    ensures m < n ==> Unmapped(env, files[m])
  {
    if n == 0 then 0
    else
      var m := FirstUnmapped(env, files, n - 1);
      if m < n - 1 then m else if Unmapped(env, files[n - 1]) then n - 1 else n
  }

  lemma FirstUnmappedAt(env: Env, files: seq<string>, n: nat)
    requires n < |files|
    ensures FirstUnmapped(env, files, n + 1) ==
            (if FirstUnmapped(env, files, n) < n then FirstUnmapped(env, files, n)
             else if Unmapped(env, files[n]) then n else n + 1)
  {
  }

  /** In the selected plan: exactly the kept images whose normalised coordinate is selected. */
  lemma {:induction false} SelectPlanSources(env: Env, selected: seq<Coord>, files: seq<string>, planned: seq<string>,
                                              n: nat, f: string)
    requires n <= |files| == |planned|
    ensures f in Sources(SelectPlan(env, selected, files, planned, n)) <==> f in files[..n] && Selected(env, selected, f)
  {
    if n > 0 {
      SelectPlanSources(env, selected, files, planned, n - 1, f);
      assert files[..n] == files[..n - 1] + [files[n - 1]];
      var p := SelectPlan(env, selected, files, planned, n - 1);
      if Selected(env, selected, files[n - 1]) {
        var q := p + [Copy(files[n - 1], planned[n - 1])];
        assert Sources(q) == Sources(p) + [files[n - 1]];
      }
    }
  }

  /** In the full plan: every kept image, in order. */
  lemma {:induction false} PlanSources(files: seq<string>, planned: seq<string>, n: nat)
    requires n <= |files| == |planned|
    ensures Sources(Plan(files, planned, n)) == files[..n]
  {
    if n > 0 {
      PlanSources(files, planned, n - 1);
      assert files[..n] == files[..n - 1] + [files[n - 1]];
    }
  }

  /** Copies that follow a plan have the plan's sources. */
  lemma FollowsSources(plan: seq<Copy>, cs: seq<Copy>)
    requires Follows(plan, cs)
    ensures Sources(cs) == Sources(plan)
  {
  }
  // ---------------------------------------------------------------------
  // What the select loop copies, read from the front

  /** Some image of the list has no normalised coordinate. */
  predicate HasUnmapped(ba: map<Coord, Coord>, images: seq<string>) {
    exists j :: 0 <= j < |images| && FindCamAndDiv(images[j]) !in ba
  }

  /**
   * The images `copy_select_files` copies, read from the front: up to the
   * first one without a normalised coordinate, those whose normalised
   * coordinate is selected.
   */
  function SelectedKept(ba: map<Coord, Coord>, selected: seq<Coord>, images: seq<string>): seq<string> {
    if images == [] then []
    else
      var cd := FindCamAndDiv(images[0]);
      if cd !in ba then []
      else (if ba[cd] in selected then [images[0]] else []) + SelectedKept(ba, selected, images[1..])
  }

  /** One more image at the end counts only when no earlier image was unmapped. */
  lemma {:induction false} SelectedKeptSnoc(ba: map<Coord, Coord>, selected: seq<Coord>, images: seq<string>, x: string)
    ensures SelectedKept(ba, selected, images + [x]) ==
            if HasUnmapped(ba, images) then SelectedKept(ba, selected, images)
            else SelectedKept(ba, selected, images) +
                 (if FindCamAndDiv(x) in ba && ba[FindCamAndDiv(x)] in selected then [x] else [])
    decreases |images|
  {
    if images == [] {
      assert [] + [x] == [x];
      assert [x][1..] == [];
    } else {
      var cd := FindCamAndDiv(images[0]);
      assert (images + [x])[0] == images[0];
      assert (images + [x])[1..] == images[1..] + [x];
      if cd !in ba {
        assert HasUnmapped(ba, images);
      } else {
        SelectedKeptSnoc(ba, selected, images[1..], x);
        HasUnmappedTail(ba, images);
        var head := if ba[cd] in selected then [images[0]] else [];
        var last := if FindCamAndDiv(x) in ba && ba[FindCamAndDiv(x)] in selected then [x] else [];
        assert head + (SelectedKept(ba, selected, images[1..]) + last) ==
               (head + SelectedKept(ba, selected, images[1..])) + last;
      }
    }
  }

  lemma HasUnmappedTail(ba: map<Coord, Coord>, images: seq<string>)
    requires images != [] && FindCamAndDiv(images[0]) in ba
    ensures HasUnmapped(ba, images) <==> HasUnmapped(ba, images[1..])
  {
    if HasUnmapped(ba, images) {
      var j :| 0 <= j < |images| && FindCamAndDiv(images[j]) !in ba;
      assert images[1..][j - 1] == images[j];
    }
    if HasUnmapped(ba, images[1..]) {
      var j :| 0 <= j < |images[1..]| && FindCamAndDiv(images[1..][j]) !in ba;
      assert images[j + 1] == images[1..][j];
    }
  }

  /**
   * The select plan up to the first unmapped image has the sources
   * `SelectedKept` reads from the front, and it stops early exactly when
   * some image is unmapped.
   */
  lemma {:induction false} SelectPlanKept(env: Env, selected: seq<Coord>, files: seq<string>, planned: seq<string>, n: nat)
    requires n <= |files| == |planned|
    ensures Sources(SelectPlan(env, selected, files, planned, FirstUnmapped(env, files, n))) ==
            SelectedKept(env.ba, selected, files[..n])
    ensures FirstUnmapped(env, files, n) < n <==> HasUnmapped(env.ba, files[..n])
  {
    if n > 0 {
      SelectPlanKept(env, selected, files, planned, n - 1);
      SelectPlanKeptStep(env, selected, files, planned, n);
    }
  }

  /** The step of `SelectPlanKept` from the first `n - 1` images to the first `n`. */
  lemma SelectPlanKeptStep(env: Env, selected: seq<Coord>, files: seq<string>, planned: seq<string>, n: nat)
    requires 0 < n <= |files| == |planned|
    requires Sources(SelectPlan(env, selected, files, planned, FirstUnmapped(env, files, n - 1))) ==
             SelectedKept(env.ba, selected, files[..n - 1])
    requires FirstUnmapped(env, files, n - 1) < n - 1 <==> HasUnmapped(env.ba, files[..n - 1])
    ensures Sources(SelectPlan(env, selected, files, planned, FirstUnmapped(env, files, n))) ==
            SelectedKept(env.ba, selected, files[..n])
    ensures FirstUnmapped(env, files, n) < n <==> HasUnmapped(env.ba, files[..n])
  {
    var init, x := files[..n - 1], files[n - 1];
    var m := FirstUnmapped(env, files, n - 1);
    FirstUnmappedAt(env, files, n - 1);
    assert files[..n] == init + [x];
    SelectedKeptSnoc(env.ba, selected, init, x);
    HasUnmappedSnoc(env.ba, init, x);
    var p := SelectPlan(env, selected, files, planned, m);
    var kept := SelectedKept(env.ba, selected, init);
    if m < n - 1 {
      assert FirstUnmapped(env, files, n) == m;
      assert SelectedKept(env.ba, selected, files[..n]) == kept;
    } else if Unmapped(env, x) {
      assert FirstUnmapped(env, files, n) == m;
      assert SelectedKept(env.ba, selected, files[..n]) == kept;
    } else {
      assert m == n - 1 && FirstUnmapped(env, files, n) == n;
      var q := SelectPlan(env, selected, files, planned, n);
      if Selected(env, selected, x) {
        assert q == p + [Copy(x, planned[n - 1])];
        assert Sources(q) == Sources(p) + [x];
        assert SelectedKept(env.ba, selected, files[..n]) == kept + [x];
      } else {
        assert q == p;
        assert SelectedKept(env.ba, selected, files[..n]) == kept;
      }
    }
  }

  lemma HasUnmappedSnoc(ba: map<Coord, Coord>, images: seq<string>, x: string)
    ensures HasUnmapped(ba, images + [x]) <==> HasUnmapped(ba, images) || FindCamAndDiv(x) !in ba
  {
    var s := images + [x];
    assert s[|images|] == x;
    assert forall j :: 0 <= j < |images| ==> s[j] == images[j];
  }
}
