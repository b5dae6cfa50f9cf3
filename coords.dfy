/**
 * CAM/DIV coordinates: extraction of the first two integers of a text, the
 * collection of the `.DIV` lines of the first metadata file, the closing of
 * DIV gaps inside a run of equal CAM values, and the positional mappings
 * between raw and normalised coordinates.
 */
module Coords {
  import opened Wrappers
  import opened Text
  import opened Folder

  /** A Python list of up to two integers, `find_cam_and_div`'s result and a mapping key. */
  type Coord = seq<nat>

  // ---------------------------------------------------------------------
  // Extraction

  /** `[int(x) for x in re.findall(r'\d+', s)]`. */
  function Numbers(s: string): seq<nat>
    decreases |s|
  {
    if s == [] then []
    else if IsDigit(s[0]) then
      var n := DigitRun(s);
      [DigitsValue(s[..n])] + Numbers(s[n..])
    else Numbers(s[1..])
  }

  /** `find_cam_and_div`: the first two integers of the text (fewer if it has fewer). */
  function FindCamAndDiv(s: string): (r: Coord)
    ensures |r| <= 2
  {
    var ns := Numbers(s);
    if |ns| <= 2 then ns else ns[..2]
  }

  lemma {:induction false} NumbersSkip(p: string, s: string)
    requires HasNoDigit(p)
    ensures Numbers(p + s) == Numbers(s)
    decreases |p|
  {
    if p != [] {
      assert (p + s)[1..] == p[1..] + s;
      NumbersSkip(p[1..], s);
    } else {
      assert p + s == s;
    }
  }

  lemma NumbersLead(d: string, rest: string)
    requires IsDigits(d) && (rest == [] || !IsDigit(rest[0]))
    ensures Numbers(d + rest) == [DigitsValue(d)] + Numbers(rest)
  {
    RunLengthExact(d, rest, IsDigit);
    var s := d + rest;
    assert s[..|d|] == d && s[|d|..] == rest;
  }

  /**
   * A name or line laid out as `<text><cam><separator><div><text>` yields
   * exactly `[cam, div]`, when the text before and the separator hold no digit
   * and the text after does not continue the DIV number.
   */
  lemma FindCamAndDivLayout(p: string, cam: nat, sep: string, div: nat, tail: string)
    requires HasNoDigit(p) && sep != [] && HasNoDigit(sep)
    requires tail == [] || !IsDigit(tail[0])
    ensures FindCamAndDiv(p + NatToString(cam) + sep + NatToString(div) + tail) == [cam, div]
  {
    var c, d := NatToString(cam), NatToString(div);
    var afterCam := sep + (d + tail);
    Regroup(p, c, sep, d, tail);
    NumbersSkip(p, c + afterCam);
    NumbersLead(c, afterCam);
    NumbersAfterCam(sep, div, tail);
    FirstTwo(p + (c + afterCam), cam, div, Numbers(tail));
  }

  lemma Regroup(a: string, b: string, c: string, d: string, e: string)
    ensures a + b + c + d + e == a + (b + (c + (d + e)))
  {
  }

  lemma FirstTwo(s: string, cam: nat, div: nat, rest: seq<nat>)
    requires Numbers(s) == [cam] + ([div] + rest)
    ensures FindCamAndDiv(s) == [cam, div]
  {
    assert ([cam] + ([div] + rest))[..2] == [cam, div];
  }

  lemma NumbersAfterCam(sep: string, div: nat, tail: string)
    requires sep != [] && HasNoDigit(sep)
    requires tail == [] || !IsDigit(tail[0])
    ensures Numbers(sep + (NatToString(div) + tail)) == [div] + Numbers(tail)
  {
    var d := NatToString(div);
    NumbersSkip(sep, d + tail);
    NumbersLead(d, tail);
  }

  // ---------------------------------------------------------------------
  // The `.DIV` lines of the first metadata file

  /** `process_first_file`: the coordinates of the lines containing `.DIV`, in file order. */
  function DivCoords(lines: seq<string>): (r: seq<Coord>)
    ensures |r| <= |lines|
    decreases |lines|
  {
    if lines == [] then []
    else
      var init := DivCoords(lines[..|lines| - 1]);
      var last := lines[|lines| - 1];
      if Contains(last, ".DIV") then init + [FindCamAndDiv(last)] else init
  }

  /** Reading more lines only adds coordinates after the ones already read. */
  lemma {:induction false} DivCoordsAppend(a: seq<string>, b: seq<string>)
    ensures DivCoords(a + b) == DivCoords(a) + DivCoords(b)
    decreases |b|
  {
    if b == [] {
      assert a + b == a;
    } else {
      var b' := b[..|b| - 1];
      assert (a + b)[..|a + b| - 1] == a + b';
      DivCoordsAppend(a, b');
    }
  }

  predicate FromDivLine(lines: seq<string>, c: Coord) {
    exists i :: 0 <= i < |lines| && Contains(lines[i], ".DIV") && c == FindCamAndDiv(lines[i])
  }

  /** Every collected coordinate comes from a `.DIV` line, and each such line gives one. */
  lemma {:induction false} DivCoordsSources(lines: seq<string>)
    ensures forall k :: 0 <= k < |DivCoords(lines)| ==> FromDivLine(lines, DivCoords(lines)[k])
    ensures (forall i :: 0 <= i < |lines| ==> Contains(lines[i], ".DIV")) ==> |DivCoords(lines)| == |lines|
    decreases |lines|
  {
    if lines != [] {
      var init := lines[..|lines| - 1];
      DivCoordsSources(init);
      forall k | 0 <= k < |DivCoords(lines)| ensures FromDivLine(lines, DivCoords(lines)[k]) {
        if k < |DivCoords(init)| {
          assert FromDivLine(init, DivCoords(init)[k]);
          var i :| 0 <= i < |init| && Contains(init[i], ".DIV") && DivCoords(init)[k] == FindCamAndDiv(init[i]);
          assert lines[i] == init[i] && DivCoords(lines)[k] == DivCoords(init)[k];
        } else {
          var n := |lines| - 1;
          assert Contains(lines[n], ".DIV") && DivCoords(lines)[k] == FindCamAndDiv(lines[n]);
        }
      }
      if forall i :: 0 <= i < |lines| ==> Contains(lines[i], ".DIV") {
        assert forall i :: 0 <= i < |init| ==> lines[i] == init[i];
      }
    }
  }

  method ProcessFirstFile(lines: seq<string>) returns (coords: seq<Coord>)
    ensures coords == DivCoords(lines)
  {
    coords := [];
    var i := 0;
    while i < |lines|
      invariant 0 <= i <= |lines|
      invariant coords == DivCoords(lines[..i])
    {
      assert lines[..i + 1][..i] == lines[..i];
      if Contains(lines[i], ".DIV") {
        coords := coords + [FindCamAndDiv(lines[i])];
      }
      i := i + 1;
    }
    assert lines[..i] == lines;
  }

  // ---------------------------------------------------------------------
  // Normalisation (`adjust_save_CAM_list`)

  predicate IsPair(c: Coord) { |c| == 2 }

  /**
   * The unpacking `current_X, current_Y = ...` succeeds on every element: a
   * list of one element is copied without being unpacked, a longer one must
   * hold pairs only.
   */
  predicate Unpackable(raw: seq<Coord>) {
    |raw| >= 2 ==> forall i :: 0 <= i < |raw| ==> |raw[i]| == 2
  }

  /** One loop step: a DIV that does not follow on in the same CAM is renumbered. */
  function Step(prev: Coord, cur: Coord): Coord
    requires IsPair(prev) && IsPair(cur)
  {
    if cur[0] == prev[0] && cur[1] != prev[1] + 1 then [cur[0], prev[1] + 1] else [cur[0], cur[1]]
  }

  function Adjusted(raw: seq<Coord>): (out: seq<Coord>)
    requires Unpackable(raw)
    ensures |out| == |raw|
    ensures |raw| > 0 ==> out[0] == raw[0]
    ensures |raw| >= 2 ==> forall i :: 0 <= i < |out| ==> |out[i]| == 2
    decreases |raw|
  {
    if |raw| <= 1 then raw
    else
      var p := Adjusted(raw[..|raw| - 1]);
      p + [Step(p[|p| - 1], raw[|raw| - 1])]
  }

  /** The condition on element `i` of a normalisation `out` of `raw`. */
  predicate FollowsOn(raw: seq<Coord>, out: seq<Coord>, i: nat)
    requires 1 <= i < |raw| == |out|
    requires |raw[i]| == 2 && |out[i]| == 2 && |out[i - 1]| == 2
  {
    out[i][0] == raw[i][0] &&
    (if out[i][0] == out[i - 1][0] then out[i][1] == out[i - 1][1] + 1 else out[i] == raw[i])
  }

  /**
   * What a normalisation of `raw` is: same length and first element; each later
   * element keeps its CAM, follows on by one DIV when its CAM equals the
   * previous one, and is the raw element otherwise.
   */
  predicate IsNormalisation(raw: seq<Coord>, out: seq<Coord>)
    requires Unpackable(raw)
  {
    |out| == |raw| &&
    (|raw| > 0 ==> out[0] == raw[0]) &&
    (|raw| >= 2 ==>
       (forall i :: 0 <= i < |out| ==> |out[i]| == 2) &&
       forall i :: 1 <= i < |raw| ==> FollowsOn(raw, out, i))
  }

  /** `Adjusted` is a normalisation, and the only one: both directions. */
  lemma AdjustedIsTheNormalisation(raw: seq<Coord>, out: seq<Coord>)
    requires Unpackable(raw)
    ensures IsNormalisation(raw, out) <==> out == Adjusted(raw)
  {
    AdjustedNormalises(raw);
    if IsNormalisation(raw, out) { NormalisationUnique(raw, out); }
  }

  lemma {:induction false} AdjustedNormalises(raw: seq<Coord>)
    requires Unpackable(raw)
    ensures IsNormalisation(raw, Adjusted(raw))
    decreases |raw|
  {
    if |raw| >= 2 {
      var init := raw[..|raw| - 1];
      AdjustedNormalises(init);
      var p := Adjusted(init);
      var out := Adjusted(raw);
      assert out == p + [Step(p[|p| - 1], raw[|raw| - 1])];
      forall i | 1 <= i < |raw| ensures FollowsOn(raw, out, i) {
        if i < |raw| - 1 {
          assert out[i] == p[i] && out[i - 1] == p[i - 1] && init[i] == raw[i];
          assert FollowsOn(init, p, i);
        } else if |raw| == 2 {
          assert p == init;
        }
      }
    }
  }

  lemma NormalisationPrefix(raw: seq<Coord>, out: seq<Coord>)
    requires |raw| >= 2 && Unpackable(raw) && IsNormalisation(raw, out)
    ensures Unpackable(raw[..|raw| - 1])
    ensures IsNormalisation(raw[..|raw| - 1], out[..|out| - 1])
  {
    var init, o := raw[..|raw| - 1], out[..|out| - 1];
    forall i | 1 <= i < |init| ensures FollowsOn(init, o, i) {
      assert FollowsOn(raw, out, i);
      assert o[i] == out[i] && o[i - 1] == out[i - 1] && init[i] == raw[i];
    }
  }

  lemma NormalisationLast(raw: seq<Coord>, out: seq<Coord>)
    requires |raw| >= 2 && Unpackable(raw) && IsNormalisation(raw, out)
    ensures out[|out| - 1] == Step(out[|out| - 2], raw[|raw| - 1])
  {
    var n := |raw| - 1;
    assert FollowsOn(raw, out, n);
    if out[n][0] == out[n - 1][0] {
      assert out[n] == [out[n][0], out[n][1]];
    }
  }

  lemma {:induction false} NormalisationUnique(raw: seq<Coord>, out: seq<Coord>)
    requires Unpackable(raw)
    requires IsNormalisation(raw, out)
    ensures out == Adjusted(raw)
    decreases |raw|
  {
    if |raw| >= 2 {
      var init, o := raw[..|raw| - 1], out[..|out| - 1];
      NormalisationPrefix(raw, out);
      NormalisationUnique(init, o);
      NormalisationLast(raw, out);
      assert out == o + [out[|out| - 1]];
    }
  }

  /** The properties one loop iteration promises, element by element. */
  lemma AdjustedAt(raw: seq<Coord>, i: nat)
    requires Unpackable(raw)
    requires 1 <= i < |raw|
    ensures Adjusted(raw)[i][0] == raw[i][0]
    ensures Adjusted(raw)[i][0] == Adjusted(raw)[i - 1][0] ==> Adjusted(raw)[i][1] == Adjusted(raw)[i - 1][1] + 1
    ensures Adjusted(raw)[i][0] != Adjusted(raw)[i - 1][0] ==> Adjusted(raw)[i] == raw[i]
  {
    AdjustedNormalises(raw);
    assert FollowsOn(raw, Adjusted(raw), i);
  }

  /** A normalised list is its own normalisation. */
  lemma AdjustedIdempotent(raw: seq<Coord>)
    requires Unpackable(raw)
    ensures Unpackable(Adjusted(raw)) && Adjusted(Adjusted(raw)) == Adjusted(raw)
  {
    var out := Adjusted(raw);
    AdjustedNormalises(raw);
    if |raw| >= 2 {
      forall i | 1 <= i < |out| ensures FollowsOn(out, out, i) {
        assert FollowsOn(raw, out, i);
      }
    }
    assert IsNormalisation(out, out);
    NormalisationUnique(out, out);
  }

  /** The example of a gap inside camera 1 and a new camera starting at DIV 1. */
  lemma AdjustedExample()
    ensures Adjusted([[1, 1], [1, 2], [1, 4], [2, 1]]) == [[1, 1], [1, 2], [1, 3], [2, 1]]
  {
    var raw: seq<Coord> := [[1, 1], [1, 2], [1, 4], [2, 1]];
    assert raw[..1] == [[1, 1]];
    assert raw[..2] == [[1, 1], [1, 2]];
    assert raw[..3] == [[1, 1], [1, 2], [1, 4]];
    assert raw[..3][..2] == raw[..2];
    assert raw[..2][..1] == raw[..1];
  }

  /** `adjust_save_CAM_list`, with the unpacking failure as an error. */
  method AdjustSaveCamList(raw: seq<Coord>) returns (r: Result<seq<Coord>>)
    ensures Unpackable(raw) ==> r == Ok(Adjusted(raw))
    ensures !Unpackable(raw) ==> r == Err(ValueError)
  {
    if |raw| == 0 {
      return Ok(raw);
    }
    var adjusted := [raw[0]];
    var i := 1;
    while i < |raw|
      invariant 1 <= i <= |raw|
      invariant i >= 2 ==> forall j :: 0 <= j < i ==> |raw[j]| == 2
      invariant Unpackable(raw[..i]) && adjusted == Adjusted(raw[..i])
    {
      if !IsPair(raw[i]) || !IsPair(adjusted[|adjusted| - 1]) {
        assert !IsPair(raw[i]) || !IsPair(raw[0]);
        return Err(ValueError);
      }
      assert raw[..i + 1][..i] == raw[..i];
      adjusted := adjusted + [Step(adjusted[|adjusted| - 1], raw[i])];
      i := i + 1;
    }
    assert raw[..i] == raw;
    return Ok(adjusted);
  }

  lemma AdjustedCam(raw: seq<Coord>, i: nat)
    requires |raw| >= 2 && Unpackable(raw) && i < |raw|
    ensures Adjusted(raw)[i][0] == raw[i][0]
  {
    var out := Adjusted(raw);
    AdjustedNormalises(raw);
    if i > 0 {
      assert FollowsOn(raw, out, i);
    }
  }

  /** Within a run of equal CAM values the normalised DIVs count up by one. */
  lemma {:induction false} AdjustedRun(raw: seq<Coord>, i: nat, j: nat)
    requires |raw| >= 2 && Unpackable(raw)
    requires i <= j < |raw|
    requires forall k :: i <= k <= j ==> raw[k][0] == raw[i][0]
    ensures Adjusted(raw)[j][1] == Adjusted(raw)[i][1] + (j - i)
    decreases j - i
  {
    if j > i {
      AdjustedRun(raw, i, j - 1);
      AdjustedAt(raw, j);
      AdjustedCam(raw, j - 1);
    }
  }

  /** Each CAM value's occurrences form one unbroken run. */
  predicate CamsContiguous(raw: seq<Coord>)
    requires forall i :: 0 <= i < |raw| ==> |raw[i]| == 2
  {
    forall i, j, k :: 0 <= i < k < j < |raw| && raw[i][0] == raw[j][0] ==> raw[k][0] == raw[i][0]
  }

  predicate NoDuplicates<T(==)>(s: seq<T>) {
    forall i, j :: 0 <= i < j < |s| ==> s[i] != s[j]
  }

  lemma AdjustedDistinctAt(raw: seq<Coord>, i: nat, j: nat)
    requires |raw| >= 2 && Unpackable(raw) && CamsContiguous(raw)
    requires i < j < |raw|
    ensures Adjusted(raw)[i] != Adjusted(raw)[j]
  {
    AdjustedCam(raw, i);
    AdjustedCam(raw, j);
    if raw[i][0] == raw[j][0] {
      ContiguousRun(raw, i, j);
      AdjustedRun(raw, i, j);
    }
  }

  /** Between two coordinates of one camera, every coordinate belongs to that camera. */
  lemma ContiguousRun(raw: seq<Coord>, i: nat, j: nat)
    requires |raw| >= 2 && Unpackable(raw) && CamsContiguous(raw)
    requires i < j < |raw| && raw[i][0] == raw[j][0]
    ensures forall k :: i <= k <= j ==> raw[k][0] == raw[i][0]
  {
    forall k | i < k < j ensures raw[k][0] == raw[i][0] {
      assert 0 <= i < k < j < |raw| && raw[i][0] == raw[j][0];
    }
  }

  /** When every camera's coordinates are contiguous, normalisation makes them all distinct. */
  lemma AdjustedDistinct(raw: seq<Coord>)
    requires |raw| >= 2 && Unpackable(raw) && CamsContiguous(raw)
    ensures NoDuplicates(Adjusted(raw))
  {
    forall i, j | 0 <= i < j < |raw| ensures Adjusted(raw)[i] != Adjusted(raw)[j] {
      AdjustedDistinctAt(raw, i, j);
    }
  }

  // ---------------------------------------------------------------------
  // Mappings (`create_mapping`)

  /**
   * The dictionary filled by `for k, v in zip(keys, values): d[tuple(k)] = tuple(v)`;
   * `mapping_BA` is `Pairing(raw, normalised)` and `mapping_AB` is
   * `Pairing(normalised, raw)`.
   */
  function Pairing(keys: seq<Coord>, values: seq<Coord>): map<Coord, Coord>
    decreases |keys|
  {
    var n := if |keys| < |values| then |keys| else |values|;
    if n == 0 then map[]
    else Pairing(keys[..n - 1], values[..n - 1])[keys[n - 1] := values[n - 1]]
  }

  /** The keys are the zipped keys, and each maps to the value paired with its last occurrence. */
  lemma {:induction false} PairingAt(keys: seq<Coord>, values: seq<Coord>, i: nat)
    requires |keys| == |values| && i < |keys|
    requires forall j :: i < j < |keys| ==> keys[j] != keys[i]
    ensures keys[i] in Pairing(keys, values) && Pairing(keys, values)[keys[i]] == values[i]
    decreases |keys|
  {
    var n := |keys|;
    if i < n - 1 {
      PairingAt(keys[..n - 1], values[..n - 1], i);
    }
  }

  lemma {:induction false} PairingKeys(keys: seq<Coord>, values: seq<Coord>, k: Coord)
    requires |keys| == |values|
    ensures k in Pairing(keys, values) <==> k in keys
    decreases |keys|
  {
    var n := |keys|;
    if n > 0 {
      PairingKeys(keys[..n - 1], values[..n - 1], k);
      assert keys == keys[..n - 1] + [keys[n - 1]];
    }
  }

  /** Every value of the map is paired, at some position, with its key. */
  lemma {:induction false} PairingValues(keys: seq<Coord>, values: seq<Coord>, k: Coord)
    requires |keys| == |values| && k in Pairing(keys, values)
    ensures exists i :: 0 <= i < |keys| && keys[i] == k && values[i] == Pairing(keys, values)[k] &&
              forall j :: i < j < |keys| ==> keys[j] != k
    decreases |keys|
  {
    var n := |keys|;
    if keys[n - 1] != k {
      PairingValues(keys[..n - 1], values[..n - 1], k);
      var ks, vs := keys[..n - 1], values[..n - 1];
      var i :| 0 <= i < n - 1 && ks[i] == k && vs[i] == Pairing(ks, vs)[k] &&
               forall j :: i < j < n - 1 ==> ks[j] != k;
      assert keys[i] == k && values[i] == Pairing(keys, values)[k];
    } else {
      assert keys[n - 1] == k && values[n - 1] == Pairing(keys, values)[k];
    }
  }

  /**
   * Looking a raw coordinate up and the result back gives the raw coordinate,
   * for every raw coordinate, whenever the normalised list has no duplicates
   * (the raw list may have some).
   */
  lemma MappingRoundTrip(raw: seq<Coord>, conv: seq<Coord>, i: nat)
    requires |raw| == |conv| && i < |raw| && NoDuplicates(conv)
    ensures raw[i] in Pairing(raw, conv)
    ensures var c := Pairing(raw, conv)[raw[i]];
            c in Pairing(conv, raw) && Pairing(conv, raw)[c] == raw[i]
  {
    PairingKeys(raw, conv, raw[i]);
    PairingValues(raw, conv, raw[i]);
    var j :| 0 <= j < |raw| && raw[j] == raw[i] && conv[j] == Pairing(raw, conv)[raw[i]] &&
             forall k :: j < k < |raw| ==> raw[k] != raw[i];
    PairingAt(conv, raw, j);
  }

  /** With both lists free of duplicates, the two mappings are inverse to each other. */
  lemma MappingsInverse(raw: seq<Coord>, conv: seq<Coord>)
    requires |raw| == |conv| && NoDuplicates(raw) && NoDuplicates(conv)
    ensures Pairing(raw, conv).Keys == set c | c in raw
    ensures Pairing(conv, raw).Keys == set c | c in conv
    ensures forall k :: k in Pairing(raw, conv) ==>
              Pairing(raw, conv)[k] in Pairing(conv, raw) && Pairing(conv, raw)[Pairing(raw, conv)[k]] == k
    ensures forall k :: k in Pairing(conv, raw) ==>
              Pairing(conv, raw)[k] in Pairing(raw, conv) && Pairing(raw, conv)[Pairing(conv, raw)[k]] == k
  {
    forall k ensures k in Pairing(raw, conv) <==> k in raw { PairingKeys(raw, conv, k); }
    forall k ensures k in Pairing(conv, raw) <==> k in conv { PairingKeys(conv, raw, k); }
    forall k | k in Pairing(raw, conv)
      ensures Pairing(raw, conv)[k] in Pairing(conv, raw) && Pairing(conv, raw)[Pairing(raw, conv)[k]] == k
    {
      var i :| 0 <= i < |raw| && raw[i] == k;
      MappingRoundTrip(raw, conv, i);
    }
    forall k | k in Pairing(conv, raw)
      ensures Pairing(conv, raw)[k] in Pairing(raw, conv) && Pairing(raw, conv)[Pairing(conv, raw)[k]] == k
    {
      var i :| 0 <= i < |conv| && conv[i] == k;
      MappingRoundTrip(conv, raw, i);
    }
  }

  /**
   * The round trip fails for cameras that come back after another camera: raw
   * (1,5) normalises to (1,2), which the later raw (1,2) also normalises to.
   */
  lemma MappingRoundTripCounterexample()
    ensures var raw: seq<Coord> := [[1, 1], [1, 5], [2, 1], [1, 2]];
            var conv := Adjusted(raw);
            conv == [[1, 1], [1, 2], [2, 1], [1, 2]] &&
            [1, 5] in Pairing(raw, conv) && Pairing(raw, conv)[[1, 5]] in Pairing(conv, raw) &&
            Pairing(conv, raw)[Pairing(raw, conv)[[1, 5]]] == [1, 2]
  {
    var raw: seq<Coord> := [[1, 1], [1, 5], [2, 1], [1, 2]];
    assert raw[..1] == [[1, 1]];
    assert raw[..2] == [[1, 1], [1, 5]];
    assert raw[..3] == [[1, 1], [1, 5], [2, 1]];
    assert raw[..3][..2] == raw[..2];
    assert raw[..2][..1] == raw[..1];
    var conv: seq<Coord> := [[1, 1], [1, 2], [2, 1], [1, 2]];
    assert Adjusted(raw) == conv;
    PairingAt(raw, conv, 1);
    PairingAt(conv, raw, 3);
  }

  /** `create_mapping`: returns `(mapping_AB, mapping_BA)`. */
  method CreateMapping(original: seq<Coord>, converted: seq<Coord>)
    returns (ab: map<Coord, Coord>, ba: map<Coord, Coord>)
    ensures ab == Pairing(converted, original) && ba == Pairing(original, converted)
  {
    ab, ba := map[], map[];
    var n := if |original| < |converted| then |original| else |converted|;
    var i := 0;
    while i < n
      invariant 0 <= i <= n
      invariant ab == Pairing(converted[..i], original[..i])
      invariant ba == Pairing(original[..i], converted[..i])
    {
      assert original[..i + 1][..i] == original[..i] && converted[..i + 1][..i] == converted[..i];
      ab := ab[converted[i] := original[i]];
      ba := ba[original[i] := converted[i]];
      i := i + 1;
    }
    PairingTruncate(original, converted, n);
    PairingTruncate(converted, original, n);
  }

  /** `zip` stops at the shorter list. */
  lemma PairingTruncate(keys: seq<Coord>, values: seq<Coord>, n: nat)
    requires n == (if |keys| < |values| then |keys| else |values|)
    ensures Pairing(keys, values) == Pairing(keys[..n], values[..n])
  {
    if |keys| != n || |values| != n {
      var m := n;
      if m > 0 {
        assert keys[..m][..m - 1] == keys[..m - 1];
        assert values[..m][..m - 1] == values[..m - 1];
      }
    } else {
      assert keys[..n] == keys && values[..n] == values;
    }
  }

  // ---------------------------------------------------------------------
  // `get_camera_list`

  /** The normalised coordinates of a folder's first metadata file (`[]` without one). */
  function CameraList(folder: Folder): (r: Result<seq<Coord>>)
    ensures MetadataFiles(folder) == [] ==> r == Ok([])
    ensures MetadataFiles(folder) != [] && MetadataFiles(folder)[0] !in folder.files ==> r == Err(FileNotFound)
    ensures MetadataFiles(folder) != [] && MetadataFiles(folder)[0] in folder.files ==>
              var raw := DivCoords(folder.files[MetadataFiles(folder)[0]]);
              (r.Ok? <==> Unpackable(raw)) && (r.Ok? ==> r.value == Adjusted(raw)) && (r.Err? ==> r.error == ValueError)
  {
    var names := MetadataFiles(folder);
    if names == [] then Ok([])
    else
      match ReadLines(folder, names[0])
      case Err(e) => Err(e)
      case Ok(lines) =>
        var raw := DivCoords(lines);
        if Unpackable(raw) then Ok(Adjusted(raw)) else Err(ValueError)
  }
}
