/**
 The scanner against the JSON grammar: it returns exactly a printed object, and on any input a returned
 slice closes its braces at its end and nowhere earlier.
 */
module JsonObjects {
  import opened Text
  import opened JsonScan
  import Decimal

  // ---------- Any input ----------

  /** Before each character of `t`, scanned from `st`, some brace is open. */
  ghost predicate StaysOpen(st: State, t: string)
    decreases |t|
  {
    t == [] || (st.depth >= 1 && StaysOpen(Step(st, t[0]), t[1..]))
  }

  /** `t` opens a brace with its first character and closes the last one with its last character. */
  ghost predicate ClosesAtEnd(t: string) {
    && t != [] && t[0] == '{'
    && StaysOpen(Step(INIT, '{'), t[1..])
    && After(INIT, t).depth == 0 && !After(INIT, t).inStr
  }

  lemma {:induction false} AfterConcat(st: State, a: string, b: string)
    ensures After(st, a + b) == After(After(st, a), b)
    decreases |a|
  {
    if a == [] {
      assert a + b == b;
    } else {
      assert (a + b)[1..] == a[1..] + b;
      AfterConcat(Step(st, a[0]), a[1..], b);
    }
  }

  lemma {:induction false} StaysOpenConcat(st: State, a: string, b: string)
    requires StaysOpen(st, a) && StaysOpen(After(st, a), b)
    ensures StaysOpen(st, a + b)
    decreases |a|
  {
    if a == [] {
      assert a + b == b;
    } else {
      assert (a + b)[1..] == a[1..] + b;
      StaysOpenConcat(Step(st, a[0]), a[1..], b);
    }
  }

  /** From an open state, the closing is the first point at which no brace is open. */
  lemma {:induction false} ClosingMeans(st: State, t: string)
    requires st.depth >= 1
    ensures var r := Closing(st, t);
      && (r.Some? ==> After(st, t[..r.value]).depth == 0 && !After(st, t[..r.value]).inStr && StaysOpen(st, t[..r.value]))
      && (r.None? ==> StaysOpen(st, t) && After(st, t).depth >= 1)
    decreases |t|
  {
    if t != [] {
      var next := Step(st, t[0]);
      var r := Closing(st, t);
      if !st.inStr && t[0] == '}' && next.depth == 0 {
        assert t[..1][1..] == [];
      } else {
        ClosingMeans(next, t[1..]);
        if r.Some? {
          assert t[..r.value][1..] == t[1..][..r.value - 1];
        }
      }
    }
  }

  /** The scanner finds the end of any text that stays open until it closes. */
  lemma {:induction false} ClosingFinds(st: State, t: string, rest: string)
    requires st.depth >= 1 && t != [] && StaysOpen(st, t) && After(st, t).depth == 0
    ensures Closing(st, t + rest) == Some(|t|)
    decreases |t|
  {
    var next := Step(st, t[0]);
    assert (t + rest)[1..] == t[1..] + rest;
    if |t| > 1 {
      ClosingFinds(next, t[1..], rest);
    }
  }

  lemma {:induction false} ClosingOfObject(t: string)
    requires t != [] && t[0] == '{'
    ensures var r := Closing(INIT, t);
      && (r.Some? ==> ClosesAtEnd(t[..r.value]))
      && (r.None? <==> StaysOpen(Step(INIT, '{'), t[1..]) && After(INIT, t).depth >= 1)
  {
    var mid := Step(INIT, '{');
    var tail := t[1..];
    ClosingMeans(mid, tail);
    var r := Closing(mid, tail);
    if r.Some? {
      assert Closing(INIT, t) == Some(r.value + 1);
      assert t[..r.value + 1][1..] == tail[..r.value];
      if r.value < |tail| {
        NotOpenPast(mid, tail, r.value);
      } else {
        assert tail[..r.value] == tail;
      }
    }
  }

  /**
   On any input: a returned slice starts with the first character after the marker that is neither blank
   nor '=', closes its braces outside strings at its end, and nowhere earlier.
   */
  lemma {:induction false} ReturnedSliceCloses(html: string, marker: string)
    ensures var r := Extract(html, marker);
      r.Some? ==>
        && ClosesAtEnd(r.value)
        && var m := Find(html, marker);
           m.Some? && r.value <= html[GapEnd(html, m.value + |marker|)..]
  {
    hide Find, Closing, ClosesAtEnd;
    var found := Find(html, marker);
    if found.Some? {
      var start := GapEnd(html, found.value + |marker|);
      if start < |html| && html[start] == '{' {
        var t := html[start..];
        ClosingOfObject(t);
        var r := Closing(INIT, t);
        assert r.Some? ==> html[start..start + r.value] == t[..r.value];
      } else {
        NoClosingOfNothing();
      }
    }
  }

  lemma NoClosingOfNothing()
    ensures Closing(INIT, "").None?
  {
  }

  /** The scan started, but no prefix of what follows the marker closes its braces. */
  ghost predicate NeverCloses(t: string) {
    t == [] || t[0] != '{' || (StaysOpen(Step(INIT, '{'), t[1..]) && After(INIT, t).depth >= 1)
  }

  /** Nothing is returned exactly when the marker is missing, something else follows it, or no brace closes in time. */
  lemma {:induction false} NothingReturned(html: string, marker: string)
    ensures var m := Find(html, marker);
      Extract(html, marker).None? <==> m.None? || NeverCloses(html[GapEnd(html, m.value + |marker|)..])
  {
    hide Find, Closing, After, StaysOpen;
    var m := Find(html, marker);
    if m.Some? {
      var t := html[GapEnd(html, m.value + |marker|)..];
      if t != [] && t[0] == '{' {
        ClosingOfObject(t);
      }
      NoClosingOfNothing();
    }
  }

  /** A text that has closed somewhere does not stay open beyond that point. */
  lemma {:induction false} NotOpenPast(st: State, t: string, n: nat)
    requires n < |t| && After(st, t[..n]).depth == 0
    ensures !StaysOpen(st, t)
    decreases n
  {
    if n > 0 {
      assert t[..n][1..] == t[1..][..n - 1];
      NotOpenPast(Step(st, t[0]), t[1..], n - 1);
    }
  }

  // ---------- JSON texts, sections 2 to 7 of RFC 8259 ----------

  /** A character of a string: itself, a two-character escape, or a \u escape with four hex digits. */
  datatype CharUnit = Plain(c: char) | Escape(e: char) | Unicode(h0: char, h1: char, h2: char, h3: char)

  /** A value with the blanks around it kept. Atoms are numbers and literals. */
  datatype Json =
    | Atom(text: string)
    | Str(units: seq<CharUnit>)
    | Array(items: Items)
    | Object(members: Members)

  datatype Items =
    | NoItems(ws: string)
    | Item(pre: string, value: Json, post: string)
    | ItemThen(pre: string, value: Json, post: string, rest: Items)

  datatype Members =
    | NoMembers(ws: string)
    | Member(pre: string, name: seq<CharUnit>, beforeColon: string, afterColon: string, value: Json, post: string)
    | MemberThen(pre: string, name: seq<CharUnit>, beforeColon: string, afterColon: string, value: Json, post: string, rest: Members)

  predicate IsWs(s: string) {
    forall i :: 0 <= i < |s| ==> s[i] == ' ' || s[i] == '\t' || s[i] == '\n' || s[i] == '\r'
  }

  predicate ValidUnit(u: CharUnit) {
    match u
    case Plain(c) => c as int >= 0x20 && c != '"' && c != '\\'
    case Escape(e) => e in "\"\\/bfnrt"
    case Unicode(a, b, c, d) => Decimal.IsHexDigit(a) && Decimal.IsHexDigit(b) && Decimal.IsHexDigit(c) && Decimal.IsHexDigit(d)
  }

  predicate ValidUnits(us: seq<CharUnit>) {
    forall i :: 0 <= i < |us| ==> ValidUnit(us[i])
  }

  /** Numbers and literals use none of the structural characters and no quotes. */
  predicate IsAtom(s: string) {
    s != [] && forall i :: 0 <= i < |s| ==> s[i] !in "\"{}[],: \t\n\r"
  }

  predicate Valid(v: Json) {
    match v
    case Atom(text) => IsAtom(text)
    case Str(units) => ValidUnits(units)
    case Array(items) => ValidItems(items)
    case Object(members) => ValidMembers(members)
  }

  predicate ValidItems(items: Items) {
    match items
    case NoItems(ws) => IsWs(ws)
    case Item(pre, v, post) => IsWs(pre) && Valid(v) && IsWs(post)
    case ItemThen(pre, v, post, rest) => IsWs(pre) && Valid(v) && IsWs(post) && ValidItems(rest)
  }

  predicate ValidMembers(ms: Members) {
    match ms
    case NoMembers(ws) => IsWs(ws)
    case Member(pre, name, b, a, v, post) =>
      IsWs(pre) && ValidUnits(name) && IsWs(b) && IsWs(a) && Valid(v) && IsWs(post)
    case MemberThen(pre, name, b, a, v, post, rest) =>
      IsWs(pre) && ValidUnits(name) && IsWs(b) && IsWs(a) && Valid(v) && IsWs(post) && ValidMembers(rest)
  }

  function PrintUnit(u: CharUnit): string {
    match u
    case Plain(c) => [c]
    case Escape(e) => ['\\', e]
    case Unicode(a, b, c, d) => ['\\', 'u', a, b, c, d]
  }

  function PrintUnits(us: seq<CharUnit>): string {
    if us == [] then "" else PrintUnit(us[0]) + PrintUnits(us[1..])
  }

  function PrintStr(us: seq<CharUnit>): string { "\"" + (PrintUnits(us) + "\"") }

  function Print(v: Json): string {
    match v
    case Atom(text) => text
    case Str(units) => PrintStr(units)
    case Array(items) => "[" + (PrintItems(items) + "]")
    case Object(members) => "{" + (PrintMembers(members) + "}")
  }

  function PrintItems(items: Items): string {
    match items
    case NoItems(ws) => ws
    case Item(pre, v, post) => pre + (Print(v) + post)
    case ItemThen(pre, v, post, rest) => pre + (Print(v) + (post + ("," + PrintItems(rest))))
  }

  function PrintMember(pre: string, name: seq<CharUnit>, b: string, a: string, value: string, post: string): string {
    pre + (PrintStr(name) + (b + (":" + (a + (value + post)))))
  }

  function PrintMembers(ms: Members): string {
    match ms
    case NoMembers(ws) => ws
    case Member(pre, name, b, a, v, post) => PrintMember(pre, name, b, a, Print(v), post)
    case MemberThen(pre, name, b, a, v, post, rest) =>
      PrintMember(pre, name, b, a, Print(v), post) + ("," + PrintMembers(rest))
  }

  // ---------- The scanner over printed texts ----------

  /** Scanning `t` from `st` comes back to `st`, with a brace open throughout. */
  ghost predicate Neutral(st: State, t: string) {
    After(st, t) == st && StaysOpen(st, t)
  }

  lemma {:induction false} NeutralConcat(st: State, a: string, b: string)
    requires Neutral(st, a) && Neutral(st, b)
    ensures Neutral(st, a + b)
  {
    AfterConcat(st, a, b);
    StaysOpenConcat(st, a, b);
  }

  /** Between strings and escapes, with a brace open. */
  predicate Outside(st: State) { st.depth >= 1 && !st.inStr && !st.escaped }

  predicate Bland(s: string) {
    forall i :: 0 <= i < |s| ==> s[i] != '"' && s[i] != '{' && s[i] != '}'
  }

  lemma {:induction false} BlandIsNeutral(st: State, s: string)
    requires Outside(st) && Bland(s)
    ensures Neutral(st, s)
    decreases |s|
  {
    if s != [] { BlandIsNeutral(st, s[1..]); }
  }

  lemma {:induction false} UnitIsNeutral(st: State, u: CharUnit)
    requires st.depth >= 1 && st.inStr && !st.escaped && ValidUnit(u)
    ensures Neutral(st, PrintUnit(u))
  {
    var t := PrintUnit(u);
    match u {
      case Plain(c) => TwoSteps(st, t);
      case Escape(e) => TwoSteps(st, t);
      case Unicode(a, b, c, d) =>
        assert t == ['\\', 'u'] + ([a, b] + [c, d]);
        TwoSteps(st, ['\\', 'u']);
        TwoSteps(st, [a, b]);
        TwoSteps(st, [c, d]);
        NeutralConcat(st, [a, b], [c, d]);
        NeutralConcat(st, ['\\', 'u'], [a, b] + [c, d]);
    }
  }

  lemma TwoSteps(st: State, t: string)
    requires 1 <= |t| <= 2 && st.depth >= 1
    ensures After(st, t) == if |t| == 1 then Step(st, t[0]) else Step(Step(st, t[0]), t[1])
    ensures StaysOpen(st, t) <==> |t| == 1 || Step(st, t[0]).depth >= 1
  {
    if |t| == 1 {
      assert t[1..] == [];
    } else {
      var last := t[1..];
      assert |last| == 1 && last[0] == t[1] && last[1..] == [];
      var next := Step(Step(st, t[0]), t[1]);
      assert After(Step(st, t[0]), last) == After(next, []);
      assert StaysOpen(Step(st, t[0]), last) <==> Step(st, t[0]).depth >= 1 && StaysOpen(next, []);
    }
  }

  lemma {:induction false} UnitsAreNeutral(st: State, us: seq<CharUnit>)
    requires st.depth >= 1 && st.inStr && !st.escaped && ValidUnits(us)
    ensures Neutral(st, PrintUnits(us))
  {
    hide ValidUnit, PrintUnit, Neutral;
    if us == [] {
      assert Neutral(st, "") by { NothingIsNeutral(st); }
    } else {
      UnitIsNeutral(st, us[0]);
      UnitsAreNeutral(st, us[1..]);
      NeutralConcat(st, PrintUnit(us[0]), PrintUnits(us[1..]));
    }
  }

  lemma NothingIsNeutral(st: State)
    ensures Neutral(st, "")
  {
  }

  /** An opening character, a text neutral in between, and a closing character. */
  lemma {:induction false} Bracketed(st: State, open: char, inner: string, close: char)
    requires st.depth >= 1 && Neutral(Step(st, open), inner) && Step(st, open).depth >= 1
    ensures After(st, [open] + (inner + [close])) == Step(Step(st, open), close)
    ensures StaysOpen(st, [open] + (inner + [close]))
  {
    var mid := Step(st, open);
    var t := [open] + (inner + [close]);
    assert t[1..] == inner + [close];
    AfterConcat(mid, inner, [close]);
    StaysOpenConcat(mid, inner, [close]);
  }

  lemma {:induction false} StrIsNeutral(st: State, us: seq<CharUnit>)
    requires Outside(st) && ValidUnits(us)
    ensures Neutral(st, PrintStr(us))
  {
    hide PrintUnits, StaysOpen, After;
    UnitsAreNeutral(st.(inStr := true), us);
    Bracketed(st, '"', PrintUnits(us), '"');
  }

  lemma WsIsBland(s: string)
    requires IsWs(s)
    ensures Bland(s)
  {
  }

  lemma AtomIsBland(s: string)
    requires IsAtom(s)
    ensures Bland(s)
  {
  }

  lemma {:induction false} WsIsNeutral(st: State, s: string)
    requires Outside(st) && IsWs(s)
    ensures Neutral(st, s)
  {
    WsIsBland(s);
    BlandIsNeutral(st, s);
  }

  /** Every printed value is neutral wherever a value may stand inside an object. */
  lemma {:induction false} ValueIsNeutral(st: State, v: Json)
    requires Outside(st) && Valid(v)
    ensures Neutral(st, Print(v))
    decreases v
  {
    hide StaysOpen, After, PrintStr;
    match v {
      case Atom(text) =>
        AtomIsBland(text);
        BlandIsNeutral(st, text);
      case Str(units) => StrIsNeutral(st, units);
      case Array(items) =>
        ItemsAreNeutral(st, items);
        Bracketed(st, '[', PrintItems(items), ']');
      case Object(members) =>
        MembersAreNeutral(Step(st, '{'), members);
        Bracketed(st, '{', PrintMembers(members), '}');
    }
  }

  lemma {:induction false} ItemsAreNeutral(st: State, items: Items)
    requires Outside(st) && ValidItems(items)
    ensures Neutral(st, PrintItems(items))
    decreases items
  {
    hide Neutral, Print, IsWs;
    match items {
      case NoItems(ws) => WsIsNeutral(st, ws);
      case Item(pre, v, post) =>
        WsIsNeutral(st, pre);
        ValueIsNeutral(st, v);
        WsIsNeutral(st, post);
        NeutralConcat(st, Print(v), post);
        NeutralConcat(st, pre, Print(v) + post);
      case ItemThen(pre, v, post, rest) =>
        WsIsNeutral(st, pre);
        ValueIsNeutral(st, v);
        WsIsNeutral(st, post);
        BlandIsNeutral(st, ",");
        ItemsAreNeutral(st, rest);
        NeutralConcat(st, ",", PrintItems(rest));
        NeutralConcat(st, post, "," + PrintItems(rest));
        NeutralConcat(st, Print(v), post + ("," + PrintItems(rest)));
        NeutralConcat(st, pre, Print(v) + (post + ("," + PrintItems(rest))));
    }
  }

  lemma {:induction false} MemberIsNeutral(st: State, pre: string, name: seq<CharUnit>, b: string, a: string, value: string, post: string)
    requires Outside(st) && IsWs(pre) && ValidUnits(name) && IsWs(b) && IsWs(a) && IsWs(post) && Neutral(st, value)
    ensures Neutral(st, PrintMember(pre, name, b, a, value, post))
  {
    hide Neutral, PrintStr, IsWs;
    WsIsNeutral(st, pre);
    StrIsNeutral(st, name);
    WsIsNeutral(st, b);
    BlandIsNeutral(st, ":");
    WsIsNeutral(st, a);
    WsIsNeutral(st, post);
    NeutralConcat(st, value, post);
    NeutralConcat(st, a, value + post);
    NeutralConcat(st, ":", a + (value + post));
    NeutralConcat(st, b, ":" + (a + (value + post)));
    NeutralConcat(st, PrintStr(name), b + (":" + (a + (value + post))));
    NeutralConcat(st, pre, PrintStr(name) + (b + (":" + (a + (value + post)))));
  }

  lemma {:induction false} MembersAreNeutral(st: State, ms: Members)
    requires Outside(st) && ValidMembers(ms)
    ensures Neutral(st, PrintMembers(ms))
    decreases ms
  {
    hide Neutral, Print, IsWs, PrintMember;
    match ms {
      case NoMembers(ws) => WsIsNeutral(st, ws);
      case Member(pre, name, b, a, v, post) =>
        ValueIsNeutral(st, v);
        MemberIsNeutral(st, pre, name, b, a, Print(v), post);
      case MemberThen(pre, name, b, a, v, post, rest) =>
        ValueIsNeutral(st, v);
        MemberIsNeutral(st, pre, name, b, a, Print(v), post);
        BlandIsNeutral(st, ",");
        MembersAreNeutral(st, rest);
        NeutralConcat(st, ",", PrintMembers(rest));
        NeutralConcat(st, PrintMember(pre, name, b, a, Print(v), post), "," + PrintMembers(rest));
    }
  }

  /** A printed object closes its braces at its end and nowhere earlier. */
  lemma {:induction false} ObjectCloses(ms: Members)
    requires ValidMembers(ms)
    ensures ClosesAtEnd(Print(Object(ms)))
  {
    hide PrintMembers;
    var inner := PrintMembers(ms);
    var mid := Step(INIT, '{');
    MembersAreNeutral(mid, ms);
    var t := Print(Object(ms));
    assert t[1..] == inner + "}";
    AfterConcat(mid, inner, "}");
    StaysOpenConcat(mid, inner, "}");
  }

  lemma {:induction false} GapEndIs(s: string, i: nat, k: nat)
    requires i <= k < |s| && !IsGap(s[k]) && forall j :: i <= j < k ==> IsGap(s[j])
    ensures GapEnd(s, i) == k
    decreases k - i
  {
    if i < k { GapEndIs(s, i + 1, k); }
  }

  /** Any text with balanced braces after the marker and a gap is returned, whatever follows it. */
  lemma {:induction false} BalancedIsReturned(pre: string, marker: string, gap: string, t: string, rest: string)
    requires ClosesAtEnd(t) && forall i :: 0 <= i < |gap| ==> IsGap(gap[i])
    requires var html := pre + (marker + (gap + (t + rest)));
      forall j :: 0 <= j < |pre| ==> !At(html, marker, j)
    ensures Extract(pre + (marker + (gap + (t + rest))), marker) == Some(t)
  {
    hide Closing, Find, GapEnd, StaysOpen, After;
    var html := pre + (marker + (gap + (t + rest)));
    assert html[|pre|..|pre| + |marker|] == marker;
    FindIs(html, marker, |pre|);
    var g := |pre| + |marker|;
    var start := g + |gap|;
    assert html[start] == '{';
    assert forall j :: g <= j < start ==> html[j] == gap[j - g];
    GapEndIs(html, g, start);
    assert html[start..] == t + rest;
    ClosingOfBalanced(t, rest);
    assert html[start..start + |t|] == t;
  }

  lemma {:induction false} ClosingOfBalanced(t: string, rest: string)
    requires ClosesAtEnd(t)
    ensures Closing(INIT, t + rest) == Some(|t|)
  {
    var mid := Step(INIT, '{');
    assert (t + rest)[1..] == t[1..] + rest;
    assert After(INIT, t) == After(mid, t[1..]);
    ClosingFinds(mid, t[1..], rest);
  }

  /**
   For every JSON object printed after the first occurrence of the marker and a gap of blanks and '=',
   and any text following, the scanner returns exactly the printed object.
   */
  lemma {:induction false} ObjectIsReturned(pre: string, marker: string, gap: string, ms: Members, rest: string)
    requires ValidMembers(ms) && forall i :: 0 <= i < |gap| ==> gap[i] in " \t\r\n="
    requires var html := pre + (marker + (gap + (Print(Object(ms)) + rest)));
      forall j :: 0 <= j < |pre| ==> !At(html, marker, j)
    ensures Extract(pre + (marker + (gap + (Print(Object(ms)) + rest))), marker) == Some(Print(Object(ms)))
  {
    hide Print, ClosesAtEnd;
    GapCharacters(gap);
    ObjectCloses(ms);
    BalancedIsReturned(pre, marker, gap, Print(Object(ms)), rest);
  }

  lemma GapCharacters(gap: string)
    ensures forall i :: 0 <= i < |gap| ==> (gap[i] in " \t\r\n=" <==> IsGap(gap[i]))
  {
  }

  /** Nothing is returned when, after a gap of blanks and '=', anything but an opening brace follows the marker. */
  lemma {:induction false} OtherIsNotReturned(pre: string, marker: string, gap: string, c: char, rest: string)
    requires c !in " \t\r\n={" && forall i :: 0 <= i < |gap| ==> gap[i] in " \t\r\n="
    requires var html := pre + (marker + (gap + ([c] + rest)));
      forall j :: 0 <= j < |pre| ==> !At(html, marker, j)
    ensures Extract(pre + (marker + (gap + ([c] + rest))), marker) == None
  {
    hide Closing, Find, GapEnd;
    var html := pre + (marker + (gap + ([c] + rest)));
    GapCharacters(gap);
    GapCharacters([c]);
    assert html[|pre|..|pre| + |marker|] == marker;
    FindIs(html, marker, |pre|);
    var g := |pre| + |marker|;
    assert html[g + |gap|] == c && [c][0] == c;
    assert forall j :: g <= j < g + |gap| ==> html[j] == gap[j - g];
    GapEndIs(html, g, g + |gap|);
  }

  /** Nor is anything returned when only a gap follows the marker. */
  lemma {:induction false} GapIsNotReturned(pre: string, marker: string, gap: string)
    requires forall i :: 0 <= i < |gap| ==> gap[i] in " \t\r\n="
    requires forall j :: 0 <= j < |pre| ==> !At(pre + (marker + gap), marker, j)
    ensures Extract(pre + (marker + gap), marker) == None
  {
    hide Closing, Find, GapEnd;
    var html := pre + (marker + gap);
    GapCharacters(gap);
    assert html[|pre|..|pre| + |marker|] == marker;
    FindIs(html, marker, |pre|);
    var g := |pre| + |marker|;
    assert forall j :: g <= j < |html| ==> html[j] == gap[j - g];
    assert GapEnd(html, g) == |html|;
    NoClosingOfNothing();
    assert html[|html|..] == "";
  }
}
