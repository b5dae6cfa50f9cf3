/**
 * The image-capture tool's log: each line announcing a capture step names the
 * tool for one `(x, y)` coordinate, and the log folds into a dictionary from
 * coordinates to tool names (`parse_cammaster_log`).
 */
module ToolLog {
  import opened Wrappers
  import opened Text
  import opened Coords

  /** The three groups of one match: `x`, `y` and the tool name. */
  datatype Entry = Entry(x: nat, y: nat, name: string)

  datatype Token<T> = Token(value: T, rest: string)

  function Key(e: Entry): Coord { [e.x, e.y] }

  /** A literal, returning what follows it. */
  function Lit(s: string, p: string): (r: Option<string>)
    ensures r.Some? <==> StartsWith(s, p)
    ensures r.Some? ==> s == p + r.value
  {
    if StartsWith(s, p) then Some(s[|p|..]) else None
  }

  /** `(\d+)`, greedy. */
  function Number(s: string): Option<Token<nat>> {
    var n := DigitRun(s);
    if n == 0 then None else Some(Token(DigitsValue(s[..n]), s[n..]))
  }

  /** `(\w+)`, greedy. */
  function Word(s: string): Option<Token<string>> {
    var n := RunLength(s, IsWordChar);
    if n == 0 then None else Some(Token(s[..n], s[n..]))
  }

  /** `\s*` followed by what has to come next. */
  function Spaces(s: string): string {
    if s != [] && IsSpace(s[0]) then Spaces(s[1..]) else s
  }

  lemma {:induction false} SpacesSuffix(s: string)
    ensures |Spaces(s)| <= |s| && Spaces(s) == s[|s| - |Spaces(s)|..]
    decreases |s|
  {
    if s != [] && IsSpace(s[0]) {
      SpacesSuffix(s[1..]);
    }
  }

  /** The groups after the first number: `y` and the tool name. */
  datatype Tail = Tail(y: nat, name: string)

  /**
   * The pattern `\((\d+),\s*(\d+):\d+\)\s*:\s*画像取込,\s*name\s*=\s*(\w+)`
   * anchored at the start of `s`. Every quantifier in it is followed by a
   * character it cannot take, so the greedy reading is the only match.
   */
  function MatchAt(s: string): Option<Entry> {
    var s1 :- Lit(s, "(");
    var x :- Number(s1);
    var s2 :- Lit(x.rest, ",");
    var t :- MatchTail(Spaces(s2));
    Some(Entry(x.value, t.y, t.name))
  }

  /** `(\d+):` and the rest of the pattern. */
  function MatchTail(s: string): Option<Tail> {
    var y :- Number(s);
    var s3 :- Lit(y.rest, ":");
    var name :- MatchCount(s3);
    Some(Tail(y.value, name))
  }

  /** `\d+\)\s*` and the rest of the pattern. */
  function MatchCount(s: string): Option<string> {
    var n :- Number(s);
    var s4 :- Lit(n.rest, ")");
    MatchTool(Spaces(s4))
  }

  /** `:\s*画像取込,\s*name\s*=\s*(\w+)`. */
  function MatchTool(s: string): Option<string> {
    var s5 :- Lit(s, ":");
    var s6 :- Lit(Spaces(s5), "画像取込,");
    var s7 :- Lit(Spaces(s6), "name");
    var s8 :- Lit(Spaces(s7), "=");
    var w :- Word(Spaces(s8));
    Some(w.value)
  }

  /** `re.search` with an anchored matcher: the match at the leftmost position that has one. */
  function SearchBy<T>(s: string, matchAt: string -> Option<T>): (r: Option<T>)
    ensures r.Some? ==> exists i :: 0 <= i <= |s| && matchAt(s[i..]) == r &&
                          forall j :: 0 <= j < i ==> matchAt(s[j..]).None?
    ensures r.None? ==> forall j :: 0 <= j <= |s| ==> matchAt(s[j..]).None?
    decreases |s|
  {
    if matchAt(s).Some? then
      assert s[0..] == s;
      matchAt(s)
    else if s == [] then None
    else
      var r := SearchBy(s[1..], matchAt);
      assert forall j :: 1 <= j <= |s| ==> s[j..] == s[1..][j - 1..];
      assert s[0..] == s;
      r
  }

  function Search(s: string): Option<Entry> { SearchBy(s, MatchAt) }

  predicate Blank(w: string) { forall i :: 0 <= i < |w| ==> IsSpace(w[i]) }

  lemma LitOf(p: string, rest: string)
    ensures Lit(p + rest, p) == Some(rest)
  {
    assert (p + rest)[..|p|] == p && (p + rest)[|p|..] == rest;
  }

  lemma {:induction false} SpacesOf(w: string, rest: string)
    requires Blank(w) && (rest == [] || !IsSpace(rest[0]))
    ensures Spaces(w + rest) == rest
    decreases |w|
  {
    if w != [] {
      assert (w + rest)[1..] == w[1..] + rest;
      SpacesOf(w[1..], rest);
    } else {
      assert w + rest == rest;
    }
  }

  lemma NumberOf(n: nat, rest: string)
    requires rest == [] || !IsDigit(rest[0])
    ensures Number(NatToString(n) + rest) == Some(Token(n, rest))
  {
    var d := NatToString(n);
    RunLengthExact(d, rest, IsDigit);
    assert (d + rest)[..|d|] == d && (d + rest)[|d|..] == rest;
  }

  lemma WordOf(w: string, rest: string)
    requires w != [] && forall i :: 0 <= i < |w| ==> IsWordChar(w[i])
    requires rest == [] || !IsWordChar(rest[0])
    ensures Word(w + rest) == Some(Token(w, rest))
  {
    RunLengthExact(w, rest, IsWordChar);
    assert (w + rest)[..|w|] == w && (w + rest)[|w|..] == rest;
  }

  /** A literal followed by spaces and then something that is not a space. */
  lemma LitSpacesOf(p: string, w: string, rest: string)
    requires Blank(w) && (rest == [] || !IsSpace(rest[0]))
    ensures Lit(p + (w + rest), p) == Some(w + rest) && Spaces(w + rest) == rest
  {
    LitOf(p, w + rest);
    SpacesOf(w, rest);
  }

  lemma MatchToolOf(w0: string, w1: string, w2: string, w3: string, name: string, tail: string)
    requires Blank(w0) && Blank(w1) && Blank(w2) && Blank(w3)
    requires name != [] && forall i :: 0 <= i < |name| ==> IsWordChar(name[i])
    requires tail == [] || !IsWordChar(tail[0])
    ensures MatchTool(":" + (w0 + ("画像取込," + (w1 + ("name" + (w2 + ("=" + (w3 + (name + tail))))))))) == Some(name)
  {
    var r6 := name + tail;
    var q5 := "=" + (w3 + r6);
    var q4 := "name" + (w2 + q5);
    var q3 := "画像取込," + (w1 + q4);
    var q2 := ":" + (w0 + q3);
    WordOf(name, tail);
    LitSpacesOf("=", w3, r6);
    LitSpacesOf("name", w2, q5);
    LitSpacesOf("画像取込,", w1, q4);
    LitSpacesOf(":", w0, q3);
  }

  lemma MatchCountOf(n: nat, w: string, tool: string, name: string)
    requires Blank(w) && MatchTool(tool) == Some(name)
    ensures MatchCount(NatToString(n) + (")" + (w + tool))) == Some(name)
  {
    assert tool != [] && tool[0] == ':';
    NumberOf(n, ")" + (w + tool));
    LitSpacesOf(")", w, tool);
  }

  lemma MatchTailOf(y: nat, rest: string, name: string)
    requires MatchCount(rest) == Some(name)
    ensures MatchTail(NatToString(y) + (":" + rest)) == Some(Tail(y, name))
  {
    NumberOf(y, ":" + rest);
    LitOf(":", rest);
  }

  lemma MatchAtOf(x: nat, w: string, rest: string, t: Tail)
    requires Blank(w) && MatchTail(rest) == Some(t)
    ensures MatchAt("(" + (NatToString(x) + ("," + (w + rest)))) == Some(Entry(x, t.y, t.name))
  {
    assert rest != [] && IsDigit(rest[0]);
    LitOf("(", NatToString(x) + ("," + (w + rest)));
    NumberOf(x, "," + (w + rest));
    LitSpacesOf(",", w, rest);
  }

  /**
   * A capture line `(x,<w0>y:n)<w1>:<w2>画像取込,<w3>name<w4>=<w5>tool<tail>`
   * with the given runs of spaces and the given text after the tool name.
   */
  function CaptureLine(e: Entry, n: nat, w0: string, w1: string, w2: string, w3: string, w4: string, w5: string, tail: string): string {
    "(" + (NatToString(e.x) + ("," + (w0 + (NatToString(e.y) + (":" + (NatToString(n) + (")" + (w1 +
    (":" + (w2 + ("画像取込," + (w3 + ("name" + (w4 + ("=" + (w5 + (e.name + tail)))))))))))))))))
  }

  /**
   * Every capture line is matched at its start and yields its coordinate and
   * its tool name, whatever the spacing, when the name is not followed by a
   * further word character.
   */
  lemma MatchCaptureLine(e: Entry, n: nat, w0: string, w1: string, w2: string, w3: string, w4: string, w5: string, tail: string)
    requires Blank(w0) && Blank(w1) && Blank(w2) && Blank(w3) && Blank(w4) && Blank(w5)
    requires e.name != [] && forall i :: 0 <= i < |e.name| ==> IsWordChar(e.name[i])
    requires tail == [] || !IsWordChar(tail[0])
    ensures MatchAt(CaptureLine(e, n, w0, w1, w2, w3, w4, w5, tail)) == Some(e)
  {
    var tool := ":" + (w2 + ("画像取込," + (w3 + ("name" + (w4 + ("=" + (w5 + (e.name + tail))))))));
    MatchToolOf(w2, w3, w4, w5, e.name, tail);
    var count := NatToString(n) + (")" + (w1 + tool));
    MatchCountOf(n, w1, tool, e.name);
    var rest := NatToString(e.y) + (":" + count);
    MatchTailOf(e.y, count, e.name);
    MatchAtOf(e.x, w0, rest, Tail(e.y, e.name));
  }

  /** A line that does not mention the capture step never matches. */
  lemma MatchNeedsCapture(s: string)
    requires !Contains(s, "画像取込,")
    ensures Search(s).None?
  {
    forall j | 0 <= j <= |s| ensures MatchAt(s[j..]).None? {
      if MatchAt(s[j..]).Some? {
        MatchAtNeedsCapture(s[j..]);
        SuffixContains(s, s[j..], "画像取込,");
      }
    }
  }

  predicate IsSuffix(t: string, s: string) { |t| <= |s| && t == s[|s| - |t|..] }

  lemma LitSuffix(s: string, p: string)
    requires Lit(s, p).Some?
    ensures IsSuffix(Lit(s, p).value, s)
  {
  }

  lemma NumberSuffix(s: string)
    requires Number(s).Some?
    ensures IsSuffix(Number(s).value.rest, s)
  {
  }

  lemma SuffixTransitive(a: string, b: string, c: string)
    requires IsSuffix(a, b) && IsSuffix(b, c)
    ensures IsSuffix(a, c)
  {
    assert c[|c| - |b|..][|b| - |a|..] == c[|c| - |a|..];
  }

  lemma MatchAtNeedsCapture(s: string)
    requires MatchAt(s).Some?
    ensures Contains(s, "画像取込,")
  {
    var s1 := Lit(s, "(").value;
    var x := Number(s1).value;
    var s2 := Lit(x.rest, ",").value;
    var t := Spaces(s2);
    assert MatchTail(t).Some?;
    MatchTailNeedsCapture(t);
    HeadSuffix(s, s1, x.rest, s2);
    SuffixContains(s, t, "画像取込,");
  }

  lemma HeadSuffix(s: string, s1: string, r: string, s2: string)
    requires Lit(s, "(") == Some(s1) && Number(s1).Some? && Number(s1).value.rest == r && Lit(r, ",") == Some(s2)
    ensures IsSuffix(Spaces(s2), s)
  {
    LitSuffix(s, "(");
    NumberSuffix(s1);
    LitSuffix(r, ",");
    SpacesSuffix(s2);
    SuffixTransitive(r, s1, s);
    SuffixTransitive(s2, r, s);
    SuffixTransitive(Spaces(s2), s2, s);
  }

  lemma MatchTailNeedsCapture(s: string)
    requires MatchTail(s).Some?
    ensures Contains(s, "画像取込,")
  {
    var y := Number(s).value;
    var s3 := Lit(y.rest, ":").value;
    MatchCountNeedsCapture(s3);
    NumberSuffix(s);
    LitSuffix(y.rest, ":");
    SuffixTransitive(s3, y.rest, s);
    SuffixContains(s, s3, "画像取込,");
  }

  lemma MatchCountNeedsCapture(s: string)
    requires MatchCount(s).Some?
    ensures Contains(s, "画像取込,")
  {
    var n := Number(s).value;
    var s4 := Lit(n.rest, ")").value;
    assert MatchTool(Spaces(s4)).Some?;
    MatchToolNeedsCapture(Spaces(s4));
    CountSuffix(s, n.rest, s4);
    SuffixContains(s, Spaces(s4), "画像取込,");
  }

  lemma CountSuffix(s: string, r: string, s4: string)
    requires Number(s).Some? && Number(s).value.rest == r && Lit(r, ")") == Some(s4)
    ensures IsSuffix(Spaces(s4), s)
  {
    NumberSuffix(s);
    LitSuffix(r, ")");
    SpacesSuffix(s4);
    SuffixTransitive(s4, r, s);
    SuffixTransitive(Spaces(s4), s4, s);
  }

  lemma MatchToolNeedsCapture(s: string)
    requires MatchTool(s).Some?
    ensures Contains(s, "画像取込,")
  {
    var s5 := Lit(s, ":").value;
    var t := Spaces(s5);
    LitSuffix(s, ":");
    SpacesSuffix(s5);
    SuffixTransitive(t, s5, s);
    assert StartsWith(t, "画像取込,");
    SuffixContains(s, t, "画像取込,");
  }

  /** What occurs in a suffix occurs in the whole text. */
  lemma {:induction false} SuffixContains(s: string, t: string, p: string)
    requires IsSuffix(t, s) && Contains(t, p)
    ensures Contains(s, p)
    decreases |s|
  {
    if |t| < |s| {
      assert s[1..][|s[1..]| - |t|..] == t;
      assert IsSuffix(t, s[1..]);
      SuffixContains(s[1..], t, p);
    } else {
      assert s == t;
    }
  }

  // ---------------------------------------------------------------------
  // The dictionary

  /**
   * The dictionary the lines give under a line parser: each matching line
   * sets its coordinate's entry, later lines overwriting earlier ones.
   */
  function Collect(lines: seq<string>, parse: string -> Option<Entry>): map<Coord, string>
    decreases |lines|
  {
    if lines == [] then map[]
    else
      var m := Collect(lines[..|lines| - 1], parse);
      match parse(lines[|lines| - 1])
      case Some(e) => m[Key(e) := e.name]
      case None => m
  }

  /** `cam_info_dict` after reading the given lines, in file order. */
  function ToolComments(lines: seq<string>): map<Coord, string> {
    Collect(lines, Search)
  }

  lemma {:induction false} CollectKeys(lines: seq<string>, parse: string -> Option<Entry>, k: Coord)
    ensures k in Collect(lines, parse) <==>
            exists i :: 0 <= i < |lines| && parse(lines[i]).Some? && Key(parse(lines[i]).value) == k
    decreases |lines|
  {
    if lines != [] {
      var init := lines[..|lines| - 1];
      CollectKeys(init, parse, k);
      if exists i :: 0 <= i < |init| && parse(init[i]).Some? && Key(parse(init[i]).value) == k {
        var i :| 0 <= i < |init| && parse(init[i]).Some? && Key(parse(init[i]).value) == k;
        assert lines[i] == init[i];
      }
      if exists i :: 0 <= i < |lines| && parse(lines[i]).Some? && Key(parse(lines[i]).value) == k {
        var i :| 0 <= i < |lines| && parse(lines[i]).Some? && Key(parse(lines[i]).value) == k;
        if i < |init| { assert lines[i] == init[i]; }
      }
    }
  }

  /** A coordinate has a tool name exactly when some line's match names it. */
  lemma ToolCommentsKeys(lines: seq<string>, k: Coord)
    ensures k in ToolComments(lines) <==>
            exists i :: 0 <= i < |lines| && Search(lines[i]).Some? && Key(Search(lines[i]).value) == k
  {
    CollectKeys(lines, Search, k);
  }

  lemma {:induction false} CollectLastWins(lines: seq<string>, parse: string -> Option<Entry>, i: nat)
    requires i < |lines| && parse(lines[i]).Some?
    requires forall j :: i < j < |lines| && parse(lines[j]).Some? ==> Key(parse(lines[j]).value) != Key(parse(lines[i]).value)
    ensures Key(parse(lines[i]).value) in Collect(lines, parse)
    ensures Collect(lines, parse)[Key(parse(lines[i]).value)] == parse(lines[i]).value.name
    decreases |lines|
  {
    var init := lines[..|lines| - 1];
    if i < |lines| - 1 {
      assert init[i] == lines[i];
      assert forall j :: i < j < |init| ==> init[j] == lines[j];
      CollectLastWins(init, parse, i);
    }
  }

  /** A coordinate's tool name is the one on the last line that names it. */
  lemma ToolCommentsLastWins(lines: seq<string>, i: nat)
    requires i < |lines| && Search(lines[i]).Some?
    requires forall j :: i < j < |lines| && Search(lines[j]).Some? ==> Key(Search(lines[j]).value) != Key(Search(lines[i]).value)
    ensures Key(Search(lines[i]).value) in ToolComments(lines)
    ensures ToolComments(lines)[Key(Search(lines[i]).value)] == Search(lines[i]).value.name
  {
    CollectLastWins(lines, Search, i);
  }

  /** A line without a match leaves the dictionary as it was. */
  lemma NonMatchingIgnored(lines: seq<string>, line: string)
    requires Search(line).None?
    ensures ToolComments(lines + [line]) == ToolComments(lines)
  {
    assert (lines + [line])[..|lines|] == lines;
  }

  /** `parse_cammaster_log`: a missing log file raises. */
  method ParseCammasterLog(log: Option<seq<string>>) returns (r: Result<map<Coord, string>>)
    ensures log.None? ==> r == Err(FileNotFound)
    ensures log.Some? ==> r == Ok(ToolComments(log.value))
  {
    if log.None? {
      return Err(FileNotFound);
    }
    var lines := log.value;
    var info: map<Coord, string> := map[];
    var i := 0;
    while i < |lines|
      invariant 0 <= i <= |lines|
      invariant info == ToolComments(lines[..i])
    {
      assert lines[..i + 1][..i] == lines[..i];
      var m := Search(lines[i]);
      if m.Some? {
        info := info[Key(m.value) := m.value.name];
      }
      i := i + 1;
    }
    assert lines[..i] == lines;
    return Ok(info);
  }
}
