/**
 * Python's `int(str)` and `format(value, spec)` for the inputs the engine
 * feeds them: decimal integer text and width specifications made of digits
 * (`"3"`, `"03"`, `"02"`). Formatting follows Python 3.10 and later, where a
 * leading `0` in the width pads strings with `0` on the right.
 */
module PyFormat {
  import opened Wrappers
  import opened Text

  /** `int(s)`: surrounding whitespace, an optional sign, then ASCII digits. */
  function ParseInt(s: string): Option<int> {
    var t := Strip(s);
    if t != [] && (t[0] == '+' || t[0] == '-') && IsDigits(t[1..]) then
      Some(if t[0] == '-' then -(DigitsValue(t[1..]) as int) else DigitsValue(t[1..]))
    else if IsDigits(t) then Some(DigitsValue(t))
    else None
  }

  /** A width specification `[0]digits`. */
  datatype Spec = Spec(zero: bool, width: nat)

  /** The specifications modelled; any other text is a specification `format` rejects. */
  function ParseSpec(fmt: string): Option<Spec> {
    if IsDigits(fmt) then Some(Spec(fmt[0] == '0', DigitsValue(fmt))) else None
  }

  function Pad(c: char, width: nat, used: nat): string {
    Repeat(c, if width > used then width - used else 0)
  }

  /** `format(n, spec)` for an integer: right-aligned, zero padding after the sign. */
  function FormatInt(n: int, spec: Spec): (r: string)
    ensures |r| >= spec.width
  {
    var digits := NatToString(if n < 0 then -n else n);
    var sign := if n < 0 then "-" else "";
    if spec.zero then sign + (Pad('0', spec.width, |sign| + |digits|) + digits)
    else Pad(' ', spec.width, |sign| + |digits|) + sign + digits
  }

  /** `format(s, spec)` for a string: left-aligned, padded with `0` or a space. */
  function FormatStr(s: string, spec: Spec): (r: string)
    ensures |r| >= spec.width && |r| >= |s| && r[..|s|] == s
  {
    s + Pad(if spec.zero then '0' else ' ', spec.width, |s|)
  }

  lemma TrimLeftSpaces(k: nat, s: string)
    requires s == [] || !IsSpace(s[0])
    ensures TrimLeft(Repeat(' ', k) + s, IsSpace) == s
  {
    TrimLeftDropped(Repeat(' ', k), s, IsSpace);
  }

  /** Reading back what `FormatInt` wrote gives the integer again, whatever the width. */
  lemma ParseFormatInt(n: int, spec: Spec)
    ensures ParseInt(FormatInt(n, spec)) == Some(n)
  {
    if spec.zero { ParseZeroPadded(n, spec); } else { ParseSpacePadded(n, spec); }
  }

  /** A sign (or none) followed by digits reads back as the signed value. */
  lemma ParseSigned(neg: bool, d: string)
    requires IsDigits(d)
    ensures ParseInt((if neg then "-" else "") + d)
            == Some(if neg then -(DigitsValue(d) as int) else DigitsValue(d))
  {
    if neg {
      ParseNegative(d);
    } else {
      assert "" + d == d;
      ParseDigits(d);
    }
  }

  lemma ParseDigits(d: string)
    requires IsDigits(d)
    ensures ParseInt(d) == Some(DigitsValue(d))
  {
    var first, last := d[0], d[|d| - 1];
    assert IsDigit(first) && IsDigit(last);
    assert !IsSpace(first) && !IsSpace(last);
    StripNoSpaceEnds(d);
    assert !(first == '+' || first == '-');
  }

  lemma ParseNegative(d: string)
    requires IsDigits(d)
    ensures ParseInt("-" + d) == Some(-(DigitsValue(d) as int))
  {
    NegativeText("-" + d, d);
  }

  lemma NegativeText(s: string, d: string)
    requires IsDigits(d) && s == "-" + d
    ensures ParseInt(s) == Some(-(DigitsValue(d) as int))
  {
    var last := d[|d| - 1];
    assert s[|s| - 1] == last && IsDigit(last);
    assert !IsSpace(last) && !IsSpace(s[0]);
    StripNoSpaceEnds(s);
    assert s[1..] == d;
    ParseStrippedNegative(s);
  }

  lemma ParseStrippedNegative(s: string)
    requires Strip(s) == s && s != [] && s[0] == '-' && IsDigits(s[1..])
    ensures ParseInt(s) == Some(-(DigitsValue(s[1..]) as int))
  {
  }

  lemma ParseZeroPadded(n: int, spec: Spec)
    requires spec.zero
    ensures ParseInt(FormatInt(n, spec)) == Some(n)
  {
    var m: nat := if n < 0 then -n else n;
    var body := Pad('0', spec.width, (if n < 0 then 1 else 0) + |NatToString(m)|) + NatToString(m);
    ZeroPaddedLayout(n, spec, body);
    ParseSigned(n < 0, body);
  }

  /** A zero-padded integer is its sign, then zeros and digits worth its magnitude. */
  lemma ZeroPaddedLayout(n: int, spec: Spec, body: string)
    requires spec.zero
    requires var m: nat := if n < 0 then -n else n;
             body == Pad('0', spec.width, (if n < 0 then 1 else 0) + |NatToString(m)|) + NatToString(m)
    ensures FormatInt(n, spec) == (if n < 0 then "-" else "") + body
    ensures IsDigits(body) && DigitsValue(body) == if n < 0 then -n else n
  {
    var m: nat := if n < 0 then -n else n;
    var digits := NatToString(m);
    var z := Pad('0', spec.width, (if n < 0 then 1 else 0) + |digits|);
    PaddedDigits(|z|, m);
  }

  lemma PaddedDigits(k: nat, m: nat)
    ensures IsDigits(Repeat('0', k) + NatToString(m)) && DigitsValue(Repeat('0', k) + NatToString(m)) == m
  {
    DigitsValueLeadingZeros(k, NatToString(m));
  }

  lemma ParseSpacePadded(n: int, spec: Spec)
    requires !spec.zero
    ensures ParseInt(FormatInt(n, spec)) == Some(n)
  {
    var m: nat := if n < 0 then -n else n;
    var digits := NatToString(m);
    var sign := if n < 0 then "-" else "";
    var sp := Pad(' ', spec.width, |sign| + |digits|);
    var body := sign + digits;
    assert FormatInt(n, spec) == sp + body;
    SpacesThenBody(|sp|, body);
    assert ParseInt(FormatInt(n, spec)) == ParseInt(body);
    SignedDigits(n);
  }

  lemma SignedDigits(n: int)
    ensures ParseInt((if n < 0 then "-" else "") + NatToString(if n < 0 then -n else n)) == Some(n)
  {
    ParseSigned(n < 0, NatToString(if n < 0 then -n else n));
  }

  lemma SpacesThenBody(k: nat, body: string)
    requires body != [] && !IsSpace(body[0])
    ensures ParseInt(Repeat(' ', k) + body) == ParseInt(body)
  {
    TrimLeftSpaces(k, body);
    TrimLeftNoop(body, IsSpace);
    ParseSameStrip(Repeat(' ', k) + body, body);
  }

  lemma ParseSameStrip(a: string, b: string)
    requires Strip(a) == Strip(b)
    ensures ParseInt(a) == ParseInt(b)
  {
  }

  /** `int(str(n))` is `n`. */
  lemma ParseNatToString(n: nat)
    ensures ParseInt(NatToString(n)) == Some(n)
  {
    var s := NatToString(n);
    StripNoSpaceEnds(s);
  }

  /** `f"{n:02}"` of a non-negative integer: its digits, with a leading zero when there is only one. */
  lemma TwoDigitsOf(n: nat)
    ensures FormatInt(n, Spec(true, 2)) == (if n < 10 then "0" else "") + NatToString(n)
  {
    var digits := NatToString(n);
    if n >= 10 {
      assert |NatToString(n / 10)| >= 1;
      assert Pad('0', 2, |digits|) == "";
    } else {
      assert |digits| == 1;
      assert Pad('0', 2, |digits|) == "0";
    }
  }
}
