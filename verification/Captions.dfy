/** The srv3 caption parser: entities, tags, attributes and the `<p>` loop. Finite times are reals. */
module Captions {
  import opened Text
  import opened Decimal

  /** An `f64`, its finite values being exact. */
  datatype Float = Finite(value: real) | Infinity(negative: bool) | NaN

  datatype Segment = Segment(start: Float, end: Float, text: string)

  // ---------- Entities ----------

  predicate AllHex(s: string) {
    forall i :: 0 <= i < |s| ==> IsHexDigit(s[i])
  }

  function HexValue(s: string): nat
    requires AllHex(s)
  {
    if s == [] then 0 else 16 * HexValue(s[..|s| - 1]) + HexDigit(s[|s| - 1])
  }

  /** `u32::from_str_radix(_, 16)`. */
  function ParseHex(s: string): Option<nat> {
    var digits := if StartsWith(s, '+') then s[1..] else s;
    if digits == [] || !AllHex(digits) || HexValue(digits) > MAX_U32 then None else Some(HexValue(digits))
  }

  /** `char::from_u32`. */
  function CharOf(n: nat): Option<char> {
    if n < 0xD800 || 0xE000 <= n < 0x11_0000 then Some(n as char) else None
  }

  /** The character an entity name stands for. */
  function EntityChar(entity: string): Option<char> {
    if entity == "amp" then Some('&')
    else if entity == "lt" then Some('<')
    else if entity == "gt" then Some('>')
    else if entity == "quot" then Some('"')
    else if entity == "apos" || entity == "#39" then Some('\'')
    else if entity == "nbsp" then Some(' ')
    else if !StartsWith(entity, '#') then None
    else
      var num := entity[1..];
      var code := if StartsWith(num, 'x') || StartsWith(num, 'X') then ParseHex(num[1..]) else ParseU32(num);
      match code
      case None => None
      case Some(n) => CharOf(n)
  }

  /** The decoded character and the length of the entity at the front of `s`, if one is recognised there. */
  datatype Decoded = Literal | Entity(c: char, length: nat)

  function EntityAt(s: string): (r: Decoded)
    requires StartsWith(s, '&')
    ensures r.Entity? ==> 0 < r.length <= |s|
  {
    match Find(s, ";")
    case None => Literal
    case Some(semi) =>
      if semi == 0 || semi > 12 then Literal
      else
        match EntityChar(s[1..semi])
        case None => Literal
        case Some(c) => Entity(c, semi + 1)
  }

  function Decode(s: string): string
    decreases |s|
  {
    if s == [] then []
    else if s[0] != '&' then [s[0]] + Decode(s[1..])
    else
      match EntityAt(s)
      case Literal => ['&'] + Decode(s[1..])
      case Entity(c, n) => [c] + Decode(s[n..])
  }

  lemma {:induction false} DecodePlain(a: string, s: string)
    requires '&' !in a
    ensures Decode(a + s) == a + Decode(s)
    decreases |a|
  {
    hide EntityAt;
    if a == [] {
      assert a + s == s;
    } else {
      assert (a + s)[1..] == a[1..] + s;
      DecodePlain(a[1..], s);
      Assoc([a[0]], a[1..], Decode(s));
      assert [a[0]] + a[1..] == a;
    }
  }

  method DecodeEntities(input: string) returns (out: string)
    ensures out == Decode(input)
  {
    hide EntityAt, Find;
    out := [];
    var rest := input;
    while true
      invariant out + Decode(rest) == Decode(input)
      decreases |rest|
    {
      var amp := Find(rest, "&");
      if amp.None? {
        NoAmpersand(rest, |rest|);
        DecodePlain(rest, []);
        assert rest + [] == rest;
        out := out + rest;
        return;
      }
      NoAmpersand(rest, amp.value);
      var before, after := rest[..amp.value], rest[amp.value..];
      assert rest == before + after;
      AtFirst(rest, "&", amp.value);
      DecodePlain(before, after);
      Assoc(out, before, Decode(after));
      out := out + before;
      var entity := EntityAt(after);
      if entity.Entity? {
        Assoc(out, [entity.c], Decode(after[entity.length..]));
        out := out + [entity.c];
        rest := after[entity.length..];
        continue;
      }
      Assoc(out, ['&'], Decode(after[1..]));
      out := out + ['&'];
      rest := after[1..];
    }
  }

  lemma NoAmpersand(s: string, n: nat)
    requires n <= |s| && forall j :: 0 <= j < n ==> !At(s, "&", j)
    ensures '&' !in s[..n]
  {
    forall j | 0 <= j < n
      ensures s[j] != '&'
    {
      assert !At(s, "&", j);
      assert s[j..j + 1] == [s[j]];
    }
  }

  // ---------- Tags and attributes ----------

  /** The characters outside `<...>`, given whether a tag is open at the start. */
  function Stripped(s: string, inTag: bool): string {
    if s == [] then []
    else if s[0] == '<' then Stripped(s[1..], true)
    else if s[0] == '>' then Stripped(s[1..], false)
    else if inTag then Stripped(s[1..], inTag)
    else [s[0]] + Stripped(s[1..], inTag)
  }

  method StripTags(input: string) returns (out: string)
    ensures out == Stripped(input, false)
  {
    out := [];
    var inTag := false;
    for i := 0 to |input|
      invariant out + Stripped(input[i..], inTag) == Stripped(input, false)
    {
      var ch := input[i];
      assert input[i..][1..] == input[i + 1..];
      if ch == '<' {
        inTag := true;
      } else if ch == '>' {
        inTag := false;
      } else if !inTag {
        Assoc(out, [ch], Stripped(input[i + 1..], inTag));
        out := out + [ch];
      }
    }
  }

  /** The value of `name="..."`. */
  function AttrValue(attrs: string, name: string): Option<string> {
    var key := name + "=\"";
    match Find(attrs, key)
    case None => None
    case Some(at) =>
      var rest := attrs[at + |key|..];
      match Find(rest, "\"")
      case None => None
      case Some(end) => Some(rest[..end])
  }

  // ---------- Numbers ----------

  function Power(base: real, e: nat): real {
    if e == 0 then 1.0 else base * Power(base, e - 1)
  }

  function Scale(e: int): real {
    if e >= 0 then Power(10.0, e) else Power(0.1, -e)
  }

  function DigitRun(s: string): (k: nat)
    ensures k <= |s| && AllDigits(s[..k]) && (k < |s| ==> !IsDigit(s[k]))
  {
    if s == [] || !IsDigit(s[0]) then 0
    else
      var k := DigitRun(s[1..]);
      assert forall i :: 1 <= i <= k ==> s[i] == s[1..][..k][i - 1];
      k + 1
  }

  /** The exponent part of a number: empty, or 'e' or 'E' with an optionally signed integer. */
  function ParseExponent(s: string): Option<int> {
    if s == [] then Some(0)
    else if s[0] != 'e' && s[0] != 'E' then None
    else
      var t := s[1..];
      var digits := if StartsWith(t, '+') || StartsWith(t, '-') then t[1..] else t;
      if digits == [] || !AllDigits(digits) then None
      else
        var v: int := Value(digits);
        if StartsWith(t, '-') then Some(-v) else Some(v)
  }

  /** digits.fraction times ten to the exponent */
  function Magnitude(digits: string, fraction: string, e: int): real
    requires AllDigits(digits) && AllDigits(fraction)
  {
    (Value(digits) as real + Value(fraction) as real * Scale(-|fraction|)) * Scale(e)
  }

  /** An unsigned finite decimal: digits, fraction, exponent. */
  function ParseUnsigned(t: string): Option<real> {
    var k := DigitRun(t);
    if k < |t| && t[k] == '.' then
      var frac := t[k + 1..];
      var f := DigitRun(frac);
      var e := ParseExponent(frac[f..]);
      if k + f == 0 || e.None? then None else Some(Magnitude(t[..k], frac[..f], e.value))
    else
      var e := ParseExponent(t[k..]);
      if k == 0 || e.None? then None else Some(Magnitude(t[..k], "", e.value))
  }

  function ToLower(s: string): (r: string)
    ensures |r| == |s|
  {
    seq(|s|, i requires 0 <= i < |s| => if 'A' <= s[i] <= 'Z' then (s[i] as int + 32) as char else s[i])
  }

  function Negated(x: Float): Float {
    match x
    case Finite(v) => Finite(-v)
    case Infinity(negative) => Infinity(!negative)
    case NaN => NaN
  }

  /** A decimal, or "inf", "infinity" or "nan" in any case. */
  function ParseMagnitude(t: string): Option<Float> {
    match ParseUnsigned(t)
    case Some(v) => Some(Finite(v))
    case None =>
      if ToLower(t) == "inf" || ToLower(t) == "infinity" then Some(Infinity(false))
      else if ToLower(t) == "nan" then Some(NaN)
      else None
  }

  /** `str::parse::<f64>`: a magnitude with an optional sign. */
  function ParseFloat(s: string): Option<Float> {
    if StartsWith(s, '+') then ParseMagnitude(s[1..])
    else if StartsWith(s, '-') then
      match ParseMagnitude(s[1..])
      case None => None
      case Some(x) => Some(Negated(x))
    else ParseMagnitude(s)
  }

  function Plus(x: Float, y: Float): Float {
    match (x, y)
    case (Finite(a), Finite(b)) => Finite(a + b)
    case (Infinity(a), Infinity(b)) => if a == b then x else NaN
    case (Infinity(_), Finite(_)) => x
    case (Finite(_), Infinity(_)) => y
    case _ => NaN
  }

  function Thousandth(x: Float): Float {
    match x
    case Finite(v) => Finite(v / 1000.0)
    case _ => x
  }

  // ---------- The <p> loop ----------

  /** The segment of one element, or nothing when it has no start time or no text. */
  function SegmentOf(attrs: string, inner: string): seq<Segment> {
    match AttrValue(attrs, "t")
    case None => []
    case Some(t) =>
      match ParseFloat(t)
      case None => []
      case Some(startMs) =>
        var durMs := match AttrValue(attrs, "d")
                     case None => Finite(0.0)
                     case Some(d) => match ParseFloat(d) case None => Finite(0.0) case Some(ms) => ms;
        var text := Trim(Decode(Stripped(inner, false)));
        if text == [] then []
        else [Segment(Thousandth(startMs), Thousandth(Plus(startMs, durMs)), text)]
  }

  /** One element cut from the front of the input, and what is left after it. */
  datatype Element = NoElement | Element(attrs: string, inner: string, next: string)

  function NextElement(xml: string): (r: Element)
    ensures r.Element? ==> |r.next| < |xml|
  {
    match Find(xml, "<p ")
    case None => NoElement
    case Some(open) =>
      var afterOpen := xml[open..];
      match Find(afterOpen, ">")
      case None => NoElement
      case Some(gt) =>
        var body := afterOpen[gt + 1..];
        match Find(body, "</p>")
        case None => Element(afterOpen[..gt], body, "")
        case Some(close) => Element(afterOpen[..gt], body[..close], body[close + 4..])
  }

  function Segments(xml: string): seq<Segment>
    decreases |xml|
  {
    match NextElement(xml)
    case NoElement => []
    case Element(attrs, inner, next) => SegmentOf(attrs, inner) + Segments(next)
  }

  method ParseTimedtextSrv3(xml: string) returns (segments: seq<Segment>)
    ensures segments == Segments(xml)
  {
    hide NextElement, SegmentOf;
    segments := [];
    var rest := xml;
    while true
      invariant segments + Segments(rest) == Segments(xml)
      decreases |rest|
    {
      var element := CutElement(rest);
      if element.NoElement? {
        break;
      }
      ghost var own := SegmentOf(element.attrs, element.inner);
      Assoc(segments, own, Segments(element.next));
      rest := element.next;
      segments := PushSegment(segments, element.attrs, element.inner);
    }
  }

  method CutElement(xml: string) returns (r: Element)
    ensures r == NextElement(xml)
  {
    hide Find;
    var open := Find(xml, "<p ");
    if open.None? {
      return NoElement;
    }
    var afterOpen := xml[open.value..];
    var gt := Find(afterOpen, ">");
    if gt.None? {
      return NoElement;
    }
    var attrs := afterOpen[..gt.value];
    var body := afterOpen[gt.value + 1..];
    var close := Find(body, "</p>");
    if close.None? {
      return Element(attrs, body, "");
    }
    return Element(attrs, body[..close.value], body[close.value + 4..]);
  }

  method PushSegment(segments: seq<Segment>, attrs: string, inner: string) returns (pushed: seq<Segment>)
    ensures pushed == segments + SegmentOf(attrs, inner)
  {
    hide AttrValue, ParseFloat, Trim, Decode, Stripped;
    pushed := segments;
    var t := AttrValue(attrs, "t");
    if t.None? {
      return;
    }
    var startMs := ParseFloat(t.value);
    if startMs.None? {
      return;
    }
    var d := AttrValue(attrs, "d");
    var durMs := Finite(0.0);
    if d.Some? {
      var ms := ParseFloat(d.value);
      if ms.Some? {
        durMs := ms.value;
      }
    }
    var stripped := StripTags(inner);
    var decoded := DecodeEntities(stripped);
    var text := Trim(decoded);
    if text == [] {
      return;
    }
    pushed := pushed + [Segment(Thousandth(startMs.value), Thousandth(Plus(startMs.value, durMs)), text)];
  }
}
