/**
 * The filename template engine: `{name}` and `{name:fmt}` placeholders are
 * replaced by one of six fields, and the result is made into a non-empty name
 * without the nine refused characters and without a leading or trailing space
 * or dot (`sanitize_filename`, `apply_filename_template`).
 */
module Template {
  import opened Wrappers
  import opened Text
  import opened PyFormat

  // ---------------------------------------------------------------------
  // Sanitiser

  /** The characters `\ / : * ? " < > |` that Windows refuses in a file name. */
  predicate IsInvalidChar(c: char) {
    c == '\\' || c == '/' || c == ':' || c == '*' || c == '?' ||
    c == '"' || c == '<' || c == '>' || c == '|'
  }

  /** The characters stripped from both ends of a name. */
  predicate IsEdgeChar(c: char) { c == ' ' || c == '.' }

  /** Non-empty, none of the nine characters the sanitiser replaces, no space or dot at either end (reserved device names and control characters are not excluded). */
  predicate IsSafeName(s: string) {
    s != [] &&
    (forall i :: 0 <= i < |s| ==> !IsInvalidChar(s[i])) &&
    !IsEdgeChar(s[0]) && !IsEdgeChar(s[|s| - 1])
  }

  function ReplaceInvalid(s: string): (r: string)
    ensures |r| == |s|
    ensures forall i :: 0 <= i < |s| ==> !IsInvalidChar(r[i])
    ensures forall i :: 0 <= i < |s| && IsInvalidChar(s[i]) ==> r[i] == '_'
    ensures forall i :: 0 <= i < |s| && !IsInvalidChar(s[i]) ==> r[i] == s[i]
  {
    if s == [] then [] else [if IsInvalidChar(s[0]) then '_' else s[0]] + ReplaceInvalid(s[1..])
  }

  /** `sanitize_filename`: always a safe name, `"unnamed"` when nothing is left. */
  function Sanitize(s: string): (r: string)
    ensures IsSafeName(r)
  {
    var u := ReplaceInvalid(s);
    var l := TrimLeft(u, IsEdgeChar);
    var t := TrimRight(l, IsEdgeChar);
    TrimmedValid(u, l, t);
    if t == [] then "unnamed" else t
  }

  /** A slice of a text without refused characters has none either. */
  lemma TrimmedValid(u: string, l: string, t: string)
    requires forall i :: 0 <= i < |u| ==> !IsInvalidChar(u[i])
    requires |l| <= |u| && l == u[|u| - |l|..] && |t| <= |l| && t == l[..|t|]
    ensures forall i :: 0 <= i < |t| ==> !IsInvalidChar(t[i])
  {
    forall i | 0 <= i < |t|
      ensures !IsInvalidChar(t[i])
    {
      assert t[i] == l[i] == u[|u| - |l| + i];
    }
  }

  /** Text without refused characters is left as it is. */
  lemma ReplaceInvalidNoop(s: string)
    requires forall i :: 0 <= i < |s| ==> !IsInvalidChar(s[i])
    ensures ReplaceInvalid(s) == s
  {
    var r := ReplaceInvalid(s);
    assert forall i :: 0 <= i < |s| ==> r[i] == s[i];
  }

  /** A name that is already safe passes through unchanged. */
  lemma SanitizeSafe(s: string)
    requires IsSafeName(s)
    ensures Sanitize(s) == s
  {
    var u := ReplaceInvalid(s);
    ReplaceInvalidNoop(s);
    TrimLeftNoop(u, IsEdgeChar);
    TrimRightNoop(u, IsEdgeChar);
  }

  /** Sanitising twice is sanitising once. */
  lemma SanitizeIdempotent(s: string)
    ensures Sanitize(Sanitize(s)) == Sanitize(s)
  {
    SanitizeSafe(Sanitize(s));
  }

  /** Characters other than the refused ones, away from the ends, are kept as they are. */
  lemma SanitizeKeepsInterior(a: string, m: string, b: string)
    requires m != [] && !IsEdgeChar(m[0]) && !IsEdgeChar(m[|m| - 1])
    requires forall i :: 0 <= i < |m| ==> !IsInvalidChar(m[i])
    requires forall i :: 0 <= i < |a| ==> IsEdgeChar(a[i])
    requires forall i :: 0 <= i < |b| ==> IsEdgeChar(b[i])
    ensures Sanitize(a + m + b) == m
  {
    var s := a + m + b;
    forall i | 0 <= i < |s|
      ensures !IsInvalidChar(s[i])
    {
      if i < |a| { assert s[i] == a[i]; }
      else if i < |a| + |m| { assert s[i] == m[i - |a|]; }
      else { assert s[i] == b[i - |a| - |m|]; }
    }
    ReplaceInvalidNoop(s);
    assert s == a + (m + b);
    TrimLeftDropped(a, m + b, IsEdgeChar);
    TrimRightDropped(m, b, IsEdgeChar);
    SanitizeTrimmed(a + m + b, m);
  }

  /** When replacing and trimming leave `m`, the name is `m`. */
  lemma SanitizeTrimmed(s: string, m: string)
    requires m != [] && TrimRight(TrimLeft(ReplaceInvalid(s), IsEdgeChar), IsEdgeChar) == m
    ensures Sanitize(s) == m
  {
  }

  // ---------------------------------------------------------------------
  // Placeholders: the pattern \{([a-zA-Z0-9_]+)(?::([^{}]+))?\}

  predicate IsBrace(c: char) { c == '{' || c == '}' }

  /** The format class `[^{}]`. */
  predicate IsFmtChar(c: char) { !IsBrace(c) }

  /** One match: the field name, the format (group 2) and the length of the matched text. */
  datatype Placeholder = Placeholder(name: string, fmt: Option<string>, len: nat)

  predicate WellFormed(name: string, fmt: Option<string>) {
    name != [] && (forall i :: 0 <= i < |name| ==> IsNameChar(name[i])) &&
    (fmt.Some? ==> fmt.value != [] && forall i :: 0 <= i < |fmt.value| ==> IsFmtChar(fmt.value[i]))
  }

  /** The text `{name}` or `{name:fmt}`. */
  function PlaceholderText(name: string, fmt: Option<string>): string {
    "{" + name + (match fmt case None => "" case Some(f) => ":" + f) + "}"
  }

  /** The match of the placeholder pattern at the start of `s`, if there is one. */
  function MatchAt(s: string): (r: Option<Placeholder>)
    ensures r.Some? ==> 0 < r.value.len <= |s|
  {
    if s == [] || s[0] != '{' then None
    else
      var n := RunLength(s[1..], IsNameChar);
      var rest := s[1 + n..];
      if n == 0 || rest == [] then None
      else if rest[0] == '}' then Some(Placeholder(s[1..1 + n], None, n + 2))
      else if rest[0] == ':' then
        var f := RunLength(rest[1..], IsFmtChar);
        if f > 0 && 1 + f < |rest| && rest[1 + f] == '}' then
          Some(Placeholder(s[1..1 + n], Some(rest[1..1 + f]), n + f + 3))
        else None
      else None
  }

  /** What a match recognises is a well-formed placeholder, spelled out at the start of `s`. */
  lemma MatchAtSound(s: string)
    ensures var r := MatchAt(s);
            r.Some? ==> WellFormed(r.value.name, r.value.fmt) &&
                        s[..r.value.len] == PlaceholderText(r.value.name, r.value.fmt)
  {
    if s != [] && s[0] == '{' {
      var n := RunLength(s[1..], IsNameChar);
      var rest := s[1 + n..];
      if n != 0 && rest != [] {
        if rest[0] == '}' {
          MatchPlainCase(s, n);
          SpellPlain(s, n);
        } else if rest[0] == ':' {
          var f := RunLength(rest[1..], IsFmtChar);
          if f > 0 && 1 + f < |rest| && rest[1 + f] == '}' {
            assert rest[1..] == s[2 + n..] && rest[1..1 + f] == s[2 + n..2 + n + f];
            MatchFormattedCase(s, n, f);
            SpellFormatted(s, n, rest[1..1 + f]);
          }
        }
      }
    }
  }

  /** `s` starts with `{`, a name of `n` characters and `}`. */
  lemma SpellPlain(s: string, n: nat)
    requires 0 < n && n + 2 <= |s| && s[0] == '{' && n == RunLength(s[1..], IsNameChar) && s[1 + n] == '}'
    ensures WellFormed(s[1..1 + n], None)
    ensures s[..n + 2] == PlaceholderText(s[1..1 + n], None)
  {
    var name := s[1..1 + n];
    RunChars(s[1..], n, IsNameChar);
    assert name == s[1..][..n];
    assert s[..n + 2] == [s[0]] + name + [s[1 + n]];
  }

  /** `s` starts with `{`, a name of `n` characters, `:`, the format `f` and `}`. */
  lemma SpellFormatted(s: string, n: nat, f: string)
    requires 0 < n && 0 < |f| && n + |f| + 3 <= |s| && s[0] == '{' && n == RunLength(s[1..], IsNameChar)
    requires s[1 + n] == ':' && s[2 + n..2 + n + |f|] == f && RunLength(s[2 + n..], IsFmtChar) == |f|
    requires s[2 + n + |f|] == '}'
    ensures WellFormed(s[1..1 + n], Some(f))
    ensures s[..n + |f| + 3] == PlaceholderText(s[1..1 + n], Some(f))
  {
    var name := s[1..1 + n];
    RunChars(s[1..], n, IsNameChar);
    assert name == s[1..][..n];
    RunChars(s[2 + n..], |f|, IsFmtChar);
    assert f == s[2 + n..][..|f|];
    assert s[..n + |f| + 3] == [s[0]] + name + ([s[1 + n]] + f) + [s[2 + n + |f|]];
  }

  /** The first `n` characters of `s`, all satisfying `p`. */
  lemma RunChars(s: string, n: nat, p: char -> bool)
    requires n <= |s| && forall i :: 0 <= i < n ==> p(s[i])
    ensures forall i :: 0 <= i < |s[..n]| ==> p(s[..n][i])
  {
  }

  /** Every well-formed placeholder text is recognised, whatever follows it. */
  lemma MatchAtComplete(name: string, fmt: Option<string>, tail: string)
    requires WellFormed(name, fmt)
    ensures MatchAt(PlaceholderText(name, fmt) + tail)
            == Some(Placeholder(name, fmt, |PlaceholderText(name, fmt)|))
  {
    match fmt {
      case None => MatchPlain(PlaceholderText(name, fmt) + tail, name, tail);
      case Some(f) => MatchFormatted(PlaceholderText(name, fmt) + tail, name, f, tail);
    }
  }

  lemma MatchPlain(s: string, name: string, tail: string)
    requires WellFormed(name, None) && s == PlaceholderText(name, None) + tail
    ensures MatchAt(s) == Some(Placeholder(name, None, |name| + 2))
  {
    var n := |name|;
    assert s == "{" + (name + ("}" + tail));
    assert s[1..] == name + ("}" + tail);
    RunLengthExact(name, "}" + tail, IsNameChar);
    assert s[1 + n] == '}';
    assert s[1..1 + n] == name;
    MatchPlainCase(s, n);
  }

  lemma MatchFormatted(s: string, name: string, f: string, tail: string)
    requires WellFormed(name, Some(f)) && s == PlaceholderText(name, Some(f)) + tail
    ensures MatchAt(s) == Some(Placeholder(name, Some(f), |name| + |f| + 3))
  {
    var n := |name|;
    FormattedLayout(s, name, f, tail);
    RunLengthExact(name, s[1 + n..], IsNameChar);
    RunLengthExact(f, s[2 + n + |f|..], IsFmtChar);
    MatchFormattedCase(s, n, |f|);
  }

  /** Where the parts of `{name:f}` followed by `tail` sit. */
  lemma FormattedLayout(s: string, name: string, f: string, tail: string)
    requires s == PlaceholderText(name, Some(f)) + tail
    ensures var n := |name|;
            |s| == n + |f| + 3 + |tail| && s[0] == '{' && s[1 + n] == ':' && s[2 + n + |f|] == '}' &&
            s[1..] == name + s[1 + n..] && s[2 + n..] == f + s[2 + n + |f|..] &&
            s[1..1 + n] == name && s[2 + n..2 + n + |f|] == f
  {
    var n := |name|;
    var rest := ":" + (f + ("}" + tail));
    assert s == "{" + (name + rest);
    assert s[1..] == name + rest;
    assert s[2 + n..] == f + ("}" + tail);
  }

  /** The match of `{`, a name of `n` characters and `}`. */
  lemma MatchPlainCase(s: string, n: nat)
    requires 0 < n && n + 2 <= |s| && s[0] == '{' && RunLength(s[1..], IsNameChar) == n && s[1 + n] == '}'
    ensures MatchAt(s) == Some(Placeholder(s[1..1 + n], None, n + 2))
  {
    assert s[1 + n..][0] == '}';
  }

  /** The match of `{`, a name of `n` characters, `:`, a format of `f` characters and `}`. */
  lemma MatchFormattedCase(s: string, n: nat, f: nat)
    requires 0 < n && 0 < f && n + f + 3 <= |s| && s[0] == '{' && RunLength(s[1..], IsNameChar) == n
    requires s[1 + n] == ':' && RunLength(s[2 + n..], IsFmtChar) == f && s[2 + n + f] == '}'
    ensures MatchAt(s) == Some(Placeholder(s[1..1 + n], Some(s[2 + n..2 + n + f]), n + f + 3))
  {
    var rest := s[1 + n..];
    assert rest[0] == ':' && rest[1..] == s[2 + n..] && rest[1 + f] == '}';
    assert rest[1..1 + f] == s[2 + n..2 + n + f];
  }

  // ---------------------------------------------------------------------
  // Substitution

  /** The six values; `None` stands for a Python `None` argument. */
  datatype Fields = Fields(
    comment: Option<string>, tool: Option<string>, original: Option<string>,
    cam: Option<string>, div: Option<string>, index: Option<string>)

  const FieldNames: set<string> := {"comment", "tool", "original", "cam", "div", "index"}

  /** `values.get(name)`: each known name has a value, `""` for a `None` argument. */
  function Lookup(f: Fields, name: string): (r: Option<string>)
    ensures r.Some? <==> name in FieldNames
  {
    if name == "comment" then Some(f.comment.GetOr(""))
    else if name == "tool" then Some(f.tool.GetOr(""))
    else if name == "original" then Some(f.original.GetOr(""))
    else if name == "cam" then Some(f.cam.GetOr(""))
    else if name == "div" then Some(f.div.GetOr(""))
    else if name == "index" then Some(f.index.GetOr(""))
    else None
  }

  /**
   * A value with a format: as an integer (blank text counting as 0) if it reads
   * as one, else as text; a specification outside the modelled ones fails both
   * times and leaves the value as it is.
   */
  function FormatField(raw: string, fmt: string): string {
    match ParseSpec(fmt)
    case None => raw
    case Some(spec) =>
      var asInt := if Strip(raw) != "" then ParseInt(raw) else Some(0);
      match asInt
      case Some(n) => FormatInt(n, spec)
      case None => FormatStr(raw, spec)
  }

  /** `_replace`: unknown names become empty text. */
  function Replacement(p: Placeholder, f: Fields): string {
    match Lookup(f, p.name)
    case None => ""
    case Some(raw) =>
      match p.fmt
      case None => raw
      case Some(fmt) => FormatField(raw, fmt)
  }

  /** `pattern.sub(_replace, t)`: leftmost matches, left to right, without overlap. */
  function Substitute(t: string, f: Fields): string
    decreases |t|
  {
    if t == [] then []
    else
      match MatchAt(t)
      case Some(p) => Replacement(p, f) + Substitute(t[p.len..], f)
      case None => [t[0]] + Substitute(t[1..], f)
  }

  /** `apply_filename_template`: total, and its result is always a safe name. */
  function Render(template: Option<string>, f: Fields): (r: string)
    ensures IsSafeName(r)
  {
    Sanitize(Substitute(template.GetOr(""), f))
  }

  /** Text without `{` is copied as it is. */
  lemma {:induction false} SubstituteLiteral(t: string, f: Fields)
    requires forall i :: 0 <= i < |t| ==> t[i] != '{'
    ensures Substitute(t, f) == t
    decreases |t|
  {
    if t != [] {
      SubstituteLiteral(t[1..], f);
      assert t == [t[0]] + t[1..];
    }
  }

  /** A placeholder is replaced by its value and the rest of the template is processed after it. */
  lemma SubstitutePlaceholder(name: string, fmt: Option<string>, tail: string, f: Fields)
    requires WellFormed(name, fmt)
    ensures Substitute(PlaceholderText(name, fmt) + tail, f)
            == Replacement(Placeholder(name, fmt, |PlaceholderText(name, fmt)|), f) + Substitute(tail, f)
  {
    var s := PlaceholderText(name, fmt) + tail;
    MatchAtComplete(name, fmt, tail);
    assert s[|PlaceholderText(name, fmt)|..] == tail;
  }

  /** An unknown name, with or without a format, renders as nothing. */
  lemma UnknownPlaceholderVanishes(name: string, fmt: Option<string>, tail: string, f: Fields)
    requires WellFormed(name, fmt) && name !in FieldNames
    ensures Substitute(PlaceholderText(name, fmt) + tail, f) == Substitute(tail, f)
  {
    SubstitutePlaceholder(name, fmt, tail, f);
  }

  /** The argument a known field name stands for. */
  function FieldOf(f: Fields, name: string): Option<string>
    requires name in FieldNames
  {
    if name == "comment" then f.comment
    else if name == "tool" then f.tool
    else if name == "original" then f.original
    else if name == "cam" then f.cam
    else if name == "div" then f.div
    else f.index
  }

  /** `{field}` for a known field gives its argument, the empty text for a `None` argument. */
  lemma KnownPlaceholderValue(name: string, tail: string, f: Fields)
    requires name in FieldNames
    ensures Substitute(PlaceholderText(name, None) + tail, f) == Lookup(f, name).value + Substitute(tail, f)
    ensures FieldOf(f, name).Some? ==> Lookup(f, name).value == FieldOf(f, name).value
    ensures FieldOf(f, name).None? ==> Lookup(f, name).value == ""
  {
    assert WellFormed(name, None);
    SubstitutePlaceholder(name, None, tail, f);
  }

  /**
   * With a width format, a blank value formats as the integer 0, a numeric value
   * formats as that integer (and reads back as it), and any other value is
   * formatted as text, which it starts with.
   */
  lemma FormatFieldCases(raw: string, fmt: string)
    requires ParseSpec(fmt).Some?
    ensures Strip(raw) == "" ==> FormatField(raw, fmt) == FormatInt(0, ParseSpec(fmt).value)
    ensures Strip(raw) != "" && ParseInt(raw).Some? ==> ParseInt(FormatField(raw, fmt)) == ParseInt(raw)
    ensures Strip(raw) != "" && ParseInt(raw).None? ==>
              |FormatField(raw, fmt)| >= |raw| && FormatField(raw, fmt)[..|raw|] == raw
    ensures |FormatField(raw, fmt)| >= ParseSpec(fmt).value.width
  {
    if Strip(raw) != "" && ParseInt(raw).Some? {
      ParseFormatInt(ParseInt(raw).value, ParseSpec(fmt).value);
    }
  }

  /** A template that is only an unknown placeholder renders as the fallback name. */
  lemma BogusTemplate(f: Fields)
    ensures Render(Some("{bogus}"), f) == "unnamed"
  {
    assert "{bogus}" == PlaceholderText("bogus", None) + "";
    assert WellFormed("bogus", None);
    UnknownPlaceholderVanishes("bogus", None, "", f);
  }

  /** The third default template, `{original}`, passes a safe original name through. */
  lemma OriginalTemplate(f: Fields)
    requires f.original.Some? && IsSafeName(f.original.value)
    ensures Render(Some("{original}"), f) == f.original.value
  {
    assert "{original}" == PlaceholderText("original", None) + "";
    KnownPlaceholderValue("original", "", f);
    SanitizeSafe(f.original.value);
  }

  /** `[m.group(1) for m in pattern.finditer(t)]`: the names of the placeholders, in order. */
  function PlaceholderNames(t: string): seq<string>
    decreases |t|
  {
    if t == [] then []
    else
      match MatchAt(t)
      case Some(p) => [p.name] + PlaceholderNames(t[p.len..])
      case None => PlaceholderNames(t[1..])
  }
}
