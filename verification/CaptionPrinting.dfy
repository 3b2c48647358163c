/** A natural srv3 printer for captions, and the proof that the parser undoes it. */
module CaptionPrinting {
  import opened Text
  import opened Decimal
  import opened Captions

  /** A run of caption text, bare or wrapped in an `<s>` tag with some attributes. */
  datatype Piece = Bare(text: string) | Tagged(attrs: string, text: string)

  /** A caption in whole milliseconds, its duration given or not. */
  datatype Caption = Caption(startMs: nat, durationMs: Option<nat>, pieces: seq<Piece>)

  /** A caption with whatever stands between it and the element before it. */
  datatype Item = Item(gap: string, caption: Caption)

  function TextOf(pieces: seq<Piece>): string {
    if pieces == [] then "" else pieces[0].text + TextOf(pieces[1..])
  }

  /** The predefined entities of section 4.6 of XML 1.0. */
  function EscapeChar(c: char): string {
    if c == '&' then "&amp;"
    else if c == '<' then "&lt;"
    else if c == '>' then "&gt;"
    else if c == '"' then "&quot;"
    else if c == '\'' then "&apos;"
    else [c]
  }

  function Escape(text: string): string {
    if text == [] then "" else EscapeChar(text[0]) + Escape(text[1..])
  }

  function PrintPiece(p: Piece): string {
    match p
    case Bare(text) => Escape(text)
    case Tagged(attrs, text) => "<s" + (attrs + (">" + (Escape(text) + "</s>")))
  }

  function PrintBody(pieces: seq<Piece>): string {
    if pieces == [] then "" else PrintPiece(pieces[0]) + PrintBody(pieces[1..])
  }

  function PrintDuration(durationMs: Option<nat>): string {
    match durationMs
    case None => ""
    case Some(d) => " d=\"" + (Print(d) + "\"")
  }

  /** The inside of the opening tag, up to its '>'. */
  function PrintAttrs(c: Caption): string {
    "<p t=\"" + (Print(c.startMs) + ("\"" + PrintDuration(c.durationMs)))
  }

  function PrintDoc(items: seq<Item>, footer: string): string {
    if items == [] then footer
    else items[0].gap + (PrintAttrs(items[0].caption) + (">" + (PrintBody(items[0].caption.pieces) + ("</p>" + PrintDoc(items[1..], footer)))))
  }

  /** No element opens inside. */
  predicate NoElementIn(s: string) {
    forall j :: 0 <= j < |s| ==> !At(s, "<p ", j)
  }

  predicate ValidPiece(p: Piece) {
    p.Tagged? ==> forall i :: 0 <= i < |p.attrs| ==> p.attrs[i] != '<' && p.attrs[i] != '>'
  }

  /** Trimmed, non-empty text in valid pieces. */
  predicate ValidCaption(c: Caption) {
    && (forall i :: 0 <= i < |c.pieces| ==> ValidPiece(c.pieces[i]))
    && TextOf(c.pieces) != [] && Trim(TextOf(c.pieces)) == TextOf(c.pieces)
  }

  predicate ValidDoc(items: seq<Item>, footer: string) {
    && (forall i :: 0 <= i < |items| ==> NoElementIn(items[i].gap) && ValidCaption(items[i].caption))
    && NoElementIn(footer)
  }

  /** In seconds; a caption without a duration ends where it starts. */
  function SegmentFor(c: Caption): Segment {
    var duration := match c.durationMs case None => 0 case Some(d) => d;
    Segment(Finite(c.startMs as real / 1000.0), Finite((c.startMs as real + duration as real) / 1000.0), TextOf(c.pieces))
  }

  function SegmentsFor(items: seq<Item>): seq<Segment> {
    if items == [] then [] else [SegmentFor(items[0].caption)] + SegmentsFor(items[1..])
  }

  // ---------- Entities ----------

  lemma {:induction false} EntityName(name: string, rest: string, c: char)
    requires |name| < 12 && ';' !in name && EntityChar(name) == Some(c)
    ensures EntityAt("&" + (name + (";" + rest))) == Entity(c, |name| + 2)
  {
    hide EntityChar;
    var s := "&" + (name + (";" + rest));
    var n := |name| + 1;
    assert s[n..n + 1] == ";";
    forall j | 0 <= j < n
      ensures !At(s, ";", j)
    {
      AtFirst(s, ";", j);
    }
    FindIs(s, ";", n);
    assert s[1..n] == name;
  }

  lemma {:induction false} DecodeNamed(name: string, rest: string, c: char)
    requires |name| < 12 && ';' !in name && EntityChar(name) == Some(c)
    ensures Decode(("&" + (name + ";")) + rest) == [c] + Decode(rest)
  {
    hide EntityChar, EntityAt;
    EntityName(name, rest, c);
    var s := ("&" + (name + ";")) + rest;
    assert s == "&" + (name + (";" + rest));
    assert s[|name| + 2..] == rest;
  }

  lemma {:induction false} DecodeEscapedChar(c: char, rest: string)
    ensures Decode(EscapeChar(c) + rest) == [c] + Decode(rest)
  {
    hide Decode;
    if c == '&' {
      assert EscapeChar(c) == "&" + ("amp" + ";");
      DecodeNamed("amp", rest, c);
    } else if c == '<' {
      assert EscapeChar(c) == "&" + ("lt" + ";");
      DecodeNamed("lt", rest, c);
    } else if c == '>' {
      assert EscapeChar(c) == "&" + ("gt" + ";");
      DecodeNamed("gt", rest, c);
    } else if c == '"' {
      assert EscapeChar(c) == "&" + ("quot" + ";");
      DecodeNamed("quot", rest, c);
    } else if c == '\'' {
      assert EscapeChar(c) == "&" + ("apos" + ";");
      DecodeNamed("apos", rest, c);
    } else {
      DecodePlain([c], rest);
    }
  }

  /** Decoding undoes escaping. */
  lemma {:induction false} DecodeEscape(text: string)
    ensures Decode(Escape(text)) == text
  {
    hide Decode, EscapeChar;
    if text == [] {
      DecodePlain([], []);
      assert Decode("") == "" by { DecodeNothing(); }
    } else {
      DecodeEscapedChar(text[0], Escape(text[1..]));
      DecodeEscape(text[1..]);
    }
  }

  lemma DecodeNothing()
    ensures Decode("") == ""
  {
  }

  // ---------- Character references ----------

  /** The code points that are characters: all but the surrogates, up to 10FFFF. */
  predicate IsScalar(n: nat) { n < 0xD800 || 0xE000 <= n <= 0x10FFFF }

  lemma {:induction false} DecimalName(n: nat)
    requires n <= MAX_I32
    ensures EntityChar("#" + Print(n)) == if IsScalar(n) then Some(n as char) else None
  {
    hide Print, Value;
    var entity := "#" + Print(n);
    assert entity[1..] == Print(n);
    ParsePrint(n);
    assert entity[0] == '#';
    if entity == "#39" {
      assert Print(n) == "39";
      ThirtyNine();
    }
  }

  lemma ThirtyNine()
    ensures Value("39") == 39
  {
    assert "39"[..1] == "3" && Value("3") == 3;
  }

  lemma {:induction false} HexName(x: char, digits: string)
    requires (x == 'x' || x == 'X') && digits != [] && AllHex(digits) && HexValue(digits) <= MAX_U32
    ensures EntityChar("#" + ([x] + digits)) == if IsScalar(HexValue(digits)) then Some(HexValue(digits) as char) else None
  {
    hide HexValue, Value;
    var entity := "#" + ([x] + digits);
    assert entity[0] == '#' && entity[1] == x && entity[1..] == [x] + digits && ([x] + digits)[1..] == digits;
  }

  /** A decimal reference is the character with that number, unless there is none. */
  lemma {:induction false} DecodeDecimal(n: nat, rest: string)
    requires n <= 0x10FFFF
    ensures var body := "#" + Print(n);
      Decode(("&" + (body + ";")) + rest) == if IsScalar(n) then [n as char] + Decode(rest) else ['&'] + Decode((body + ";") + rest)
  {
    hide Print, Value, EntityChar, EntityAt;
    DecimalName(n);
    assert Power10(7) == 10000000;
    PrintLength(n, 7, Power10(7));
    if IsScalar(n) {
      DecodeNamed("#" + Print(n), rest, n as char);
    } else {
      DecodeUnnamed("#" + Print(n), rest);
    }
  }

  /** A hexadecimal reference of up to nine digits, likewise. */
  lemma {:induction false} DecodeHex(x: char, digits: string, rest: string)
    requires (x == 'x' || x == 'X') && digits != [] && |digits| <= 9 && AllHex(digits) && HexValue(digits) <= 0x10FFFF
    ensures var n, body := HexValue(digits), "#" + ([x] + digits);
      Decode(("&" + (body + ";")) + rest) == if IsScalar(n) then [n as char] + Decode(rest) else ['&'] + Decode((body + ";") + rest)
  {
    hide HexValue, EntityChar, EntityAt;
    var body := "#" + ([x] + digits);
    HexName(x, digits);
    if IsScalar(HexValue(digits)) {
      DecodeNamed(body, rest, HexValue(digits) as char);
    } else {
      DecodeUnnamed(body, rest);
    }
  }

  /** A name that stands for nothing, or any of twelve characters or more, is no reference: its '&' is kept. */
  lemma {:induction false} DecodeUnnamed(name: string, rest: string)
    requires ';' !in name && (|name| >= 12 || EntityChar(name) == None)
    ensures Decode(("&" + (name + ";")) + rest) == ['&'] + Decode((name + ";") + rest)
  {
    hide EntityChar;
    var s := ("&" + (name + ";")) + rest;
    var n := |name| + 1;
    assert s[n..n + 1] == ";";
    forall j | 0 <= j < n
      ensures !At(s, ";", j)
    {
      AtFirst(s, ";", j);
    }
    FindIs(s, ";", n);
    assert s[1..n] == name;
    assert s[1..] == (name + ";") + rest;
  }

  /** The names that stand for something are the five of XML, "nbsp", and numbers. */
  lemma {:induction false} KnownNames(name: string)
    ensures EntityChar("amp") == Some('&') && EntityChar("lt") == Some('<') && EntityChar("gt") == Some('>')
    ensures EntityChar("quot") == Some('"') && EntityChar("apos") == Some('\'') && EntityChar("nbsp") == Some(' ')
    ensures name !in {"amp", "lt", "gt", "quot", "apos", "nbsp"} && !StartsWith(name, '#') ==> EntityChar(name) == None
  {
  }

  // ---------- Tags ----------

  predicate NoAngles(s: string) {
    forall i :: 0 <= i < |s| ==> s[i] != '<' && s[i] != '>'
  }

  lemma {:induction false} EscapeHasNoAngles(text: string)
    ensures NoAngles(Escape(text))
  {
    if text != [] { EscapeHasNoAngles(text[1..]); }
  }

  lemma {:induction false} StripPlain(a: string, s: string, inTag: bool)
    requires NoAngles(a)
    ensures Stripped(a + s, inTag) == if inTag then Stripped(s, inTag) else a + Stripped(s, inTag)
    decreases |a|
  {
    if a == [] {
      assert a + s == s;
    } else {
      assert (a + s)[1..] == a[1..] + s;
      StripPlain(a[1..], s, inTag);
      if !inTag {
        Assoc([a[0]], a[1..], Stripped(s, inTag));
        assert [a[0]] + a[1..] == a;
      }
    }
  }

  /** A whole tag disappears. */
  lemma {:induction false} StripTag(name: string, s: string)
    requires NoAngles(name)
    ensures Stripped("<" + (name + (">" + s)), false) == Stripped(s, false)
  {
    var t := "<" + (name + (">" + s));
    assert t[1..] == name + (">" + s);
    StripPlain(name, ">" + s, true);
    assert (">" + s)[1..] == s;
  }

  lemma {:induction false} StripPiece(p: Piece, s: string)
    requires ValidPiece(p)
    ensures Stripped(PrintPiece(p) + s, false) == Escape(p.text) + Stripped(s, false)
  {
    hide Stripped, Escape;
    EscapeHasNoAngles(p.text);
    match p {
      case Bare(text) => StripPlain(Escape(text), s, false);
      case Tagged(attrs, text) =>
        var e := Escape(text);
        assert PrintPiece(p) + s == "<" + (("s" + attrs) + (">" + (e + ("<" + ("/s" + (">" + s))))));
        StripTag("s" + attrs, e + ("<" + ("/s" + (">" + s))));
        StripPlain(e, "<" + ("/s" + (">" + s)), false);
        StripTag("/s", s);
    }
  }

  lemma {:induction false} EscapeConcat(a: string, b: string)
    ensures Escape(a + b) == Escape(a) + Escape(b)
  {
    if a == [] {
      assert a + b == b;
    } else {
      assert (a + b)[1..] == a[1..] + b;
      EscapeConcat(a[1..], b);
      Assoc(EscapeChar(a[0]), Escape(a[1..]), Escape(b));
    }
  }

  lemma {:induction false} StripBody(pieces: seq<Piece>)
    requires forall i :: 0 <= i < |pieces| ==> ValidPiece(pieces[i])
    ensures Stripped(PrintBody(pieces), false) == Escape(TextOf(pieces))
  {
    hide Escape, PrintPiece;
    if pieces == [] {
      assert Escape("") == "" by { EscapeNothing(); }
    } else {
      StripPiece(pieces[0], PrintBody(pieces[1..]));
      StripBody(pieces[1..]);
      EscapeConcat(pieces[0].text, TextOf(pieces[1..]));
    }
  }

  lemma EscapeNothing()
    ensures Escape("") == ""
  {
  }

  predicate TagAt(s: string, j: nat) {
    j + 2 < |s| && (s[j + 1] == 's' || (s[j + 1] == '/' && s[j + 2] == 's'))
  }

  /** In a body every '<' opens an `<s` or `</s` tag, so no `</p>` starts there. */
  predicate OnlySTags(s: string) {
    forall j :: 0 <= j < |s| && s[j] == '<' ==> TagAt(s, j)
  }

  lemma {:induction false} OnlySTagsConcat(a: string, b: string)
    requires OnlySTags(a) && OnlySTags(b)
    ensures OnlySTags(a + b)
  {
    var t := a + b;
    forall j | 0 <= j < |t| && t[j] == '<'
      ensures TagAt(t, j)
    {
      if j < |a| {
        assert TagAt(a, j);
        assert t[j + 1] == a[j + 1] && t[j + 2] == a[j + 2];
      } else {
        var k := j - |a|;
        assert TagAt(b, k);
        assert t[j + 1] == b[k + 1] && t[j + 2] == b[k + 2];
      }
    }
  }

  lemma {:induction false} NoAnglesOnlySTags(s: string)
    requires NoAngles(s)
    ensures OnlySTags(s)
  {
  }

  lemma TagHead(attrs: string)
    requires NoAngles(attrs)
    ensures OnlySTags("<s" + (attrs + ">"))
  {
    var t := "<s" + (attrs + ">");
    assert forall j :: 2 <= j < |attrs| + 2 ==> t[j] == attrs[j - 2];
  }

  lemma {:induction false} PieceTags(p: Piece)
    requires ValidPiece(p)
    ensures OnlySTags(PrintPiece(p))
  {
    hide OnlySTags, Escape;
    EscapeHasNoAngles(p.text);
    NoAnglesOnlySTags(Escape(p.text));
    if p.Tagged? {
      var head, e := "<s" + (p.attrs + ">"), Escape(p.text);
      TagHead(p.attrs);
      assert OnlySTags("</s>") by { TagEnd(); }
      OnlySTagsConcat(e, "</s>");
      OnlySTagsConcat(head, e + "</s>");
      assert PrintPiece(p) == head + (e + "</s>");
    }
  }

  lemma TagEnd()
    ensures OnlySTags("</s>")
  {
    assert TagAt("</s>", 0);
  }

  lemma {:induction false} BodyTags(pieces: seq<Piece>)
    requires forall i :: 0 <= i < |pieces| ==> ValidPiece(pieces[i])
    ensures OnlySTags(PrintBody(pieces))
  {
    hide OnlySTags, PrintPiece;
    if pieces == [] {
      assert OnlySTags("") by { NoTagsInNothing(); }
    } else {
      PieceTags(pieces[0]);
      BodyTags(pieces[1..]);
      OnlySTagsConcat(PrintPiece(pieces[0]), PrintBody(pieces[1..]));
    }
  }

  lemma NoTagsInNothing()
    ensures OnlySTags("")
  {
  }

  lemma {:induction false} FindClose(body: string, rest: string)
    requires OnlySTags(body)
    ensures Find(body + ("</p>" + rest), "</p>") == Some(|body|)
  {
    var s := body + ("</p>" + rest);
    assert s[|body|..|body| + 4] == "</p>";
    forall j | 0 <= j < |body|
      ensures !At(s, "</p>", j)
    {
      AtIndex(s, "</p>", j, 0);
      AtIndex(s, "</p>", j, 1);
      AtIndex(s, "</p>", j, 2);
      assert s[j] == '<' ==> TagAt(body, j) && s[j + 1] == body[j + 1] && s[j + 2] == body[j + 2];
    }
    FindIs(s, "</p>", |body|);
  }

  // ---------- One element ----------

  lemma {:induction false} ParsePrinted(n: nat)
    ensures ParseFloat(Print(n)) == Some(Finite(n as real))
  {
    hide Print, Value;
    var s := Print(n);
    assert IsDigit(s[0]);
    DigitRunAll(s);
    assert s[..|s|] == s;
    assert Value("") == 0 by { ValueOfNothing(); }
    assert Scale(0) == 1.0;
  }

  lemma ValueOfNothing()
    ensures Value("") == 0
  {
  }

  lemma {:induction false} DigitRunAll(s: string)
    requires AllDigits(s)
    ensures DigitRun(s) == |s|
  {
  }

  /** `name="digits"`, where the key starts at `at` and nowhere earlier. */
  lemma {:induction false} AttrIs(pre: string, name: string, digits: string, post: string)
    requires AllDigits(digits) && name != []
    requires var s := pre + ((name + "=\"") + (digits + ("\"" + post)));
      forall j :: 0 <= j < |pre| ==> !At(s, name + "=\"", j)
    ensures AttrValue(pre + ((name + "=\"") + (digits + ("\"" + post))), name) == Some(digits)
  {
    var key := name + "=\"";
    var s := pre + (key + (digits + ("\"" + post)));
    assert s[|pre|..|pre| + |key|] == key;
    FindIs(s, key, |pre|);
    var rest := s[|pre| + |key|..];
    assert rest == digits + ("\"" + post);
    assert rest[|digits|..|digits| + 1] == "\"";
    forall j | 0 <= j < |digits|
      ensures !At(rest, "\"", j)
    {
      AtFirst(rest, "\"", j);
      assert rest[j] == digits[j];
    }
    FindIs(rest, "\"", |digits|);
    assert rest[..|digits|] == digits;
  }

  lemma {:induction false} StartAttr(c: Caption)
    ensures AttrValue(PrintAttrs(c), "t") == Some(Print(c.startMs))
  {
    hide AttrValue, Print;
    var pre := "<p ";
    var post := PrintDuration(c.durationMs);
    var s := pre + (("t" + "=\"") + (Print(c.startMs) + ("\"" + post)));
    assert s == PrintAttrs(c);
    var key := "t" + "=\"";
    forall j | 0 <= j < 3
      ensures !At(s, key, j)
    {
      AtFirst(s, key, j);
    }
    AttrIs(pre, "t", Print(c.startMs), post);
  }

  lemma {:induction false} DurationAttr(c: Caption)
    ensures AttrValue(PrintAttrs(c), "d") == match c.durationMs case None => None case Some(d) => Some(Print(d))
  {
    hide AttrValue, Print;
    var t := Print(c.startMs);
    var key := "d" + "=\"";
    match c.durationMs {
      case None =>
        var s := PrintAttrs(c);
        var pre := "<p t=\"" + (t + "\" ");
        forall j | 0 <= j < |s|
          ensures !At(s, key, j)
        {
          AtFirst(s, key, j);
          assert s[j] == pre[j];
          NoLetterD(t, j);
        }
        NoAttr(s, "d");
      case Some(d) =>
        var pre := "<p t=\"" + (t + "\" ");
        var s := pre + (key + (Print(d) + ("\"" + "")));
        assert s == PrintAttrs(c);
        forall j | 0 <= j < |pre|
          ensures !At(s, key, j)
        {
          AtFirst(s, key, j);
          assert s[j] == pre[j];
          NoLetterD(t, j);
        }
        AttrIs(pre, "d", Print(d), "");
    }
  }

  lemma {:induction false} NoAttr(s: string, name: string)
    requires forall j :: 0 <= j < |s| ==> !At(s, name + "=\"", j)
    ensures AttrValue(s, name) == None
  {
    assert Find(s, name + "=\"").None?;
  }

  lemma NoLetterD(t: string, j: nat)
    requires AllDigits(t) && j < |"<p t=\"" + (t + "\" ")|
    ensures ("<p t=\"" + (t + "\" "))[j] != 'd'
  {
  }

  lemma {:induction false} SegmentOfPrinted(c: Caption)
    requires ValidCaption(c)
    ensures SegmentOf(PrintAttrs(c), PrintBody(c.pieces)) == [SegmentFor(c)]
  {
    hide AttrValue, ParseFloat, Stripped, Decode, Trim, Print, PrintAttrs, PrintBody, Escape;
    StartAttr(c);
    DurationAttr(c);
    ParsePrinted(c.startMs);
    if c.durationMs.Some? { ParsePrinted(c.durationMs.value); }
    StripBody(c.pieces);
    DecodeEscape(TextOf(c.pieces));
  }

  lemma {:induction false} AttrsHaveNoEnd(c: Caption, rest: string)
    ensures Find(PrintAttrs(c) + (">" + rest), ">") == Some(|PrintAttrs(c)|)
  {
    hide Print;
    var a := PrintAttrs(c);
    var s := a + (">" + rest);
    assert s[|a|..|a| + 1] == ">";
    forall j | 0 <= j < |a|
      ensures !At(s, ">", j)
    {
      AtFirst(s, ">", j);
      assert s[j] == a[j];
      NoAngleInAttrs(c, j);
    }
    FindIs(s, ">", |a|);
  }

  lemma NoAngleInAttrs(c: Caption, j: nat)
    requires j < |PrintAttrs(c)|
    ensures PrintAttrs(c)[j] != '>'
  {
    hide Print;
  }

  /** An element is found after any gap in which none opens: no occurrence straddles the boundary. */
  lemma {:induction false} FindElement(gap: string, c: Caption, rest: string)
    requires NoElementIn(gap)
    ensures Find(gap + (PrintAttrs(c) + rest), "<p ") == Some(|gap|)
  {
    hide Print;
    var s := gap + (PrintAttrs(c) + rest);
    var n := |gap|;
    assert s[n..n + 3] == "<p ";
    forall j | 0 <= j < n
      ensures !At(s, "<p ", j)
    {
      AtIndex(s, "<p ", j, 1);
      AtIndex(s, "<p ", j, 2);
      assert s[n] == '<';
      if j + 3 <= n {
        assert s[j..j + 3] == gap[j..j + 3];
        assert !At(gap, "<p ", j);
      }
    }
    FindIs(s, "<p ", n);
  }

  lemma {:induction false} NextIsPrinted(item: Item, rest: string)
    requires NoElementIn(item.gap) && ValidCaption(item.caption)
    ensures var c := item.caption;
      NextElement(item.gap + (PrintAttrs(c) + (">" + (PrintBody(c.pieces) + ("</p>" + rest)))))
      == Element(PrintAttrs(c), PrintBody(c.pieces), rest)
  {
    hide Find, PrintAttrs, PrintBody, NoElementIn, TextOf, Trim, OnlySTags;
    var c := item.caption;
    var a, body := PrintAttrs(c), PrintBody(c.pieces);
    var tail := ">" + (body + ("</p>" + rest));
    var xml := item.gap + (a + tail);
    FindElement(item.gap, c, tail);
    var afterOpen := xml[|item.gap|..];
    assert afterOpen == a + tail;
    AttrsHaveNoEnd(c, body + ("</p>" + rest));
    assert afterOpen[..|a|] == a;
    var b := afterOpen[|a| + 1..];
    assert b == body + ("</p>" + rest);
    BodyTags(c.pieces);
    FindClose(body, rest);
    assert b[..|body|] == body && b[|body| + 4..] == rest;
  }

  lemma {:induction false} NoElementLeft(footer: string)
    requires NoElementIn(footer)
    ensures Segments(footer) == []
  {
  }

  /** Parsing undoes printing: every list of captions comes back, times and text. */
  lemma {:induction false} CaptionRoundTrip(items: seq<Item>, footer: string)
    requires ValidDoc(items, footer)
    ensures Segments(PrintDoc(items, footer)) == SegmentsFor(items)
  {
    hide NextElement, SegmentOf, ValidCaption, NoElementIn, PrintAttrs, PrintBody, SegmentFor;
    if items == [] {
      NoElementLeft(footer);
    } else {
      NextIsPrinted(items[0], PrintDoc(items[1..], footer));
      SegmentOfPrinted(items[0].caption);
      CaptionRoundTrip(items[1..], footer);
    }
  }
}
