/** A printer for deep links with percent-encoding (section 2.1 of RFC 3986), and the proof that parsing undoes it. */
module UrlPrinting {
  import opened Text
  import opened UrlScheme

  // ---------- Percent encoding ----------

  predicate Ascii(s: string) {
    forall i :: 0 <= i < |s| ==> s[i] as int < 128
  }

  /** The unreserved characters of section 2.3 of RFC 3986. */
  predicate Unreserved(c: char) {
    'A' <= c <= 'Z' || 'a' <= c <= 'z' || '0' <= c <= '9' || c == '-' || c == '.' || c == '_' || c == '~'
  }

  /** A hex digit, upper or lower case. */
  function HexChar(n: nat, upper: bool): char
    requires n < 16
  {
    if n < 10 then ('0' as int + n) as char
    else if upper then ('A' as int + n - 10) as char
    else ('a' as int + n - 10) as char
  }

  function EncodeChar(c: char, upper: bool): string {
    if Unreserved(c) || c as int >= 256 then [c]
    else ['%', HexChar(c as int / 16, upper), HexChar(c as int % 16, upper)]
  }

  function Encode(s: string, upper: bool): string {
    if s == [] then [] else EncodeChar(s[0], upper) + Encode(s[1..], upper)
  }

  lemma HexRoundTrip(n: nat, upper: bool)
    requires n < 16
    ensures HexVal(HexChar(n, upper)) == Some(n)
  {
  }

  lemma {:induction false} DecodeEncodedChar(c: char, upper: bool, rest: string)
    requires c as int < 128
    ensures Decoded(EncodeChar(c, upper) + rest) == [c] + Decoded(rest)
  {
    hide HexChar, HexVal;
    var s := EncodeChar(c, upper) + rest;
    if Unreserved(c) {
      assert s[1..] == rest;
    } else {
      HexRoundTrip(c as int / 16, upper);
      HexRoundTrip(c as int % 16, upper);
      assert s[1] == HexChar(c as int / 16, upper) && s[2] == HexChar(c as int % 16, upper);
      assert HexPair(s) == Some(c as int);
      assert s[3..] == rest;
    }
  }

  /** Decoding undoes encoding. */
  lemma {:induction false} DecodeEncode(s: string, upper: bool)
    requires Ascii(s)
    ensures Decoded(Encode(s, upper)) == s
  {
    hide EncodeChar, Decoded;
    if s == [] {
      assert Decoded("") == "" by { DecodeNothing(); }
    } else {
      DecodeEncodedChar(s[0], upper, Encode(s[1..], upper));
      DecodeEncode(s[1..], upper);
    }
  }

  lemma DecodeNothing()
    ensures Decoded("") == ""
  {
  }

  /** None of the characters that delimit the parts of a link. */
  predicate Undelimited(s: string) {
    forall i :: 0 <= i < |s| ==> s[i] !in "/?&="
  }

  lemma {:induction false} EncodeUndelimited(s: string, upper: bool)
    requires Ascii(s)
    ensures Undelimited(Encode(s, upper))
    ensures s != [] ==> Encode(s, upper) != []
  {
    hide EncodeChar;
    if s != [] {
      EncodeUndelimited(s[1..], upper);
      EncodeCharUndelimited(s[0], upper);
    }
  }

  lemma EncodeCharUndelimited(c: char, upper: bool)
    requires c as int < 128
    ensures Undelimited(EncodeChar(c, upper)) && EncodeChar(c, upper) != []
  {
    hide HexChar;
    HexPlain(c as int / 16, upper);
    HexPlain(c as int % 16, upper);
  }

  lemma HexPlain(n: nat, upper: bool)
    requires n < 16
    ensures HexChar(n, upper) !in "/?&="
  {
  }

  // ---------- Splitting undoes joining ----------

  lemma {:induction false} SplitPlain(a: string, c: char)
    requires c !in a
    ensures SplitOn(a, c) == [a]
  {
    if a != [] {
      SplitPlain(a[1..], c);
      assert [a[0]] + a[1..] == a;
    }
  }

  lemma {:induction false} SplitFirst(a: string, c: char, b: string)
    requires c !in a
    ensures SplitOn(a + ([c] + b), c) == [a] + SplitOn(b, c)
  {
    var s := a + ([c] + b);
    if a == [] {
      assert s[1..] == b;
    } else {
      assert s[1..] == a[1..] + ([c] + b);
      SplitFirst(a[1..], c, b);
      assert [a[0]] + a[1..] == a;
      assert ([a[1..]] + SplitOn(b, c))[1..] == SplitOn(b, c);
    }
  }

  lemma {:induction false} SplitJoined(parts: seq<string>, c: char)
    requires parts != [] && forall i :: 0 <= i < |parts| ==> c !in parts[i]
    ensures SplitOn(Joined(parts, c), c) == parts
  {
    if |parts| == 1 {
      SplitPlain(parts[0], c);
    } else {
      SplitJoined(parts[1..], c);
      SplitFirst(parts[0], c, Joined(parts[1..], c));
    }
  }

  /** Joining undoes splitting. */
  lemma {:induction false} JoinedSplit(s: string, c: char)
    ensures Joined(SplitOn(s, c), c) == s
    ensures forall i :: 0 <= i < |SplitOn(s, c)| ==> c !in SplitOn(s, c)[i]
  {
    if s != [] {
      JoinedSplit(s[1..], c);
      var rest := SplitOn(s[1..], c);
      assert [s[0]] + s[1..] == s;
      if s[0] == c {
        assert ([""] + rest)[1..] == rest;
      } else {
        var all := [[s[0]] + rest[0]] + rest[1..];
        assert all[1..] == rest[1..];
      }
    }
  }

  lemma {:induction false} NonEmptyKeepsAll(parts: seq<string>)
    requires forall i :: 0 <= i < |parts| ==> parts[i] != ""
    ensures NonEmpty(parts) == parts
  {
    if parts != [] { NonEmptyKeepsAll(parts[1..]); }
  }

  // ---------- Parts ----------

  function EncodeAll(parts: seq<string>, upper: bool): (r: seq<string>)
    ensures |r| == |parts|
    ensures forall i :: 0 <= i < |r| ==> r[i] == Encode(parts[i], upper)
  {
    if parts == [] then [] else [Encode(parts[0], upper)] + EncodeAll(parts[1..], upper)
  }

  /** ASCII and not empty: what a path segment may be. */
  predicate Segment(s: string) { s != "" && Ascii(s) }

  predicate Segments(parts: seq<string>) {
    forall i :: 0 <= i < |parts| ==> Segment(parts[i])
  }

  lemma {:induction false} DecodeEncodeAll(parts: seq<string>, upper: bool)
    requires Segments(parts)
    ensures DecodedAll(EncodeAll(parts, upper)) == parts
    ensures forall i :: 0 <= i < |parts| ==> EncodeAll(parts, upper)[i] != "" && Undelimited(EncodeAll(parts, upper)[i])
  {
    hide Encode, Decoded, Undelimited;
    if parts != [] {
      assert Segment(parts[0]);
      DecodeEncode(parts[0], upper);
      EncodeUndelimited(parts[0], upper);
      DecodeEncodeAll(parts[1..], upper);
    }
  }

  // ---------- Query ----------

  datatype Pair = Pair(key: string, value: string)

  function PrintPair(p: Pair, upper: bool): string {
    Encode(p.key, upper) + "=" + Encode(p.value, upper)
  }

  function PrintPairs(pairs: seq<Pair>, upper: bool): (r: seq<string>)
    ensures |r| == |pairs|
    ensures forall i :: 0 <= i < |r| ==> r[i] == PrintPair(pairs[i], upper)
  {
    if pairs == [] then [] else [PrintPair(pairs[0], upper)] + PrintPairs(pairs[1..], upper)
  }

  predicate AsciiPairs(pairs: seq<Pair>) {
    forall i :: 0 <= i < |pairs| ==> Ascii(pairs[i].key) && Ascii(pairs[i].value)
  }

  /** The pairs list the map's entries once each, in any order. */
  ghost predicate Lists(pairs: seq<Pair>, m: Params) {
    && (forall i, j :: 0 <= i < j < |pairs| ==> pairs[i].key != pairs[j].key)
    && (forall i :: 0 <= i < |pairs| ==> pairs[i].key in m && m[pairs[i].key] == pairs[i].value)
    && (forall k :: k in m ==> exists i :: 0 <= i < |pairs| && pairs[i].key == k)
  }

  lemma {:induction false} SplitPair(p: Pair, upper: bool)
    requires Ascii(p.key) && Ascii(p.value)
    ensures SplitOnce(PrintPair(p, upper), "=") == Split(Encode(p.key, upper), Encode(p.value, upper))
  {
    hide Encode;
    var a, b := Encode(p.key, upper), Encode(p.value, upper);
    EncodeUndelimited(p.key, upper);
    var s := a + "=" + b;
    forall j | 0 <= j < |a|
      ensures !At(s, "=", j)
    {
      AtFirst(s, "=", j);
      assert s[j] == a[j];
    }
    SplitOnceIs(a, "=", b);
  }

  /** Inserting the printed pairs adds exactly the pairs. */
  lemma {:induction false} InsertPrinted(m: Params, pairs: seq<Pair>, upper: bool, k: string)
    requires AsciiPairs(pairs) && forall i, j :: 0 <= i < j < |pairs| ==> pairs[i].key != pairs[j].key
    ensures var r := InsertPairs(m, PrintPairs(pairs, upper));
      && (forall i :: 0 <= i < |pairs| && pairs[i].key == k ==> k in r && r[k] == pairs[i].value)
      && ((forall i :: 0 <= i < |pairs| ==> pairs[i].key != k) ==> (k in r <==> k in m) && (k in m ==> r[k] == m[k]))
    decreases |pairs|
  {
    hide Encode, PrintPair, SplitOnce, Decoded;
    if pairs != [] {
      var p := pairs[0];
      SplitPair(p, upper);
      DecodeEncode(p.key, upper);
      DecodeEncode(p.value, upper);
      assert forall i :: 1 <= i < |pairs| ==> pairs[i] == pairs[1..][i - 1];
      InsertPrinted(m[p.key := p.value], pairs[1..], upper, k);
    }
  }

  function Query(pairs: seq<Pair>, upper: bool): string {
    Joined(PrintPairs(pairs, upper), '&')
  }

  lemma {:induction false} InsertLists(pairs: seq<Pair>, m: Params, upper: bool)
    requires AsciiPairs(pairs) && Lists(pairs, m)
    ensures InsertPairs(map[], PrintPairs(pairs, upper)) == m
  {
    hide PrintPairs, InsertPairs, AsciiPairs;
    var r := InsertPairs(map[], PrintPairs(pairs, upper));
    forall k
      ensures k in r <==> k in m
      ensures k in m ==> r[k] == m[k]
    {
      InsertPrinted(map[], pairs, upper, k);
      if k in m {
        var i :| 0 <= i < |pairs| && pairs[i].key == k;
      }
    }
  }

  lemma {:induction false} QueryRoundTrip(pairs: seq<Pair>, m: Params, upper: bool)
    requires AsciiPairs(pairs) && Lists(pairs, m)
    ensures QueryParams(Query(pairs, upper)) == m
    ensures pairs != [] ==> Query(pairs, upper) != ""
  {
    hide PrintPair, InsertPairs, SplitOn, Joined, Lists;
    var parts := PrintPairs(pairs, upper);
    InsertLists(pairs, m, upper);
    if pairs == [] {
      assert Query(pairs, upper) == "" by { EmptyQuery(upper); }
      NoPairs(upper);
    } else {
      forall i | 0 <= i < |parts|
        ensures '&' !in parts[i] && parts[i] != ""
      {
        PairPlain(pairs[i], upper);
      }
      SplitJoined(parts, '&');
      JoinedNotEmpty(parts);
    }
  }

  lemma NoPairs(upper: bool)
    ensures InsertPairs(map[], PrintPairs([], upper)) == map[]
  {
  }

  lemma {:induction false} PairPlain(p: Pair, upper: bool)
    requires Ascii(p.key) && Ascii(p.value)
    ensures '&' !in PrintPair(p, upper) && PrintPair(p, upper) != ""
  {
    hide Encode;
    EncodeUndelimited(p.key, upper);
    EncodeUndelimited(p.value, upper);
  }

  lemma JoinedNotEmpty(parts: seq<string>)
    requires parts != [] && parts[0] != ""
    ensures Joined(parts, '&') != ""
  {
  }

  // ---------- Links ----------

  /** The decoded path segments of a link, after the scheme. */
  function SegmentsOf(u: NotesmithUrl): seq<string> {
    match u
    case Open(vault, path) => ["app", "open", vault] + SplitOn(path, '/')
    case Daily(vault) => ["app", "daily", vault]
    case Search(vault, _) => ["app", "search", vault]
    case New(vault, _, _) => ["app", "new", vault]
    case Capture(vault, _) => ["app", "capture", vault]
    case Task(vault, path, _, _) => ["app", "task", vault] + SplitOn(path, '/')
    case Command(name, _) => ["app", "command", name]
    case UserAction(name, _) => ["user", name]
  }

  function OptionParam(key: string, v: Option<string>): Params {
    if v.Some? then map[key := v.value] else map[]
  }

  function ParamsOf(u: NotesmithUrl): Params {
    match u
    case Open(_, _) => map[]
    case Daily(_) => map[]
    case Search(_, query) => map["q" := query]
    case New(_, template, folder) => OptionParam("template", template) + OptionParam("folder", folder)
    case Capture(_, text) => map["text" := text]
    case Task(_, _, lineHash, status) => map["line_hash" := lineHash, "status" := status]
    case Command(_, args) => args
    case UserAction(_, params) => params
  }

  function PrintUrl(u: NotesmithUrl, pairs: seq<Pair>, upper: bool): string {
    SCHEME + (Joined(EncodeAll(SegmentsOf(u), upper), '/') + (if pairs == [] then "" else "?" + Query(pairs, upper)))
  }

  /** Names the router looks for are their own encoding. */
  lemma {:induction false} EncodeIsIdentity(s: string, upper: bool)
    requires forall i :: 0 <= i < |s| ==> Unreserved(s[i])
    ensures Encode(s, upper) == s
  {
    if s != [] {
      EncodeIsIdentity(s[1..], upper);
      assert [s[0]] + s[1..] == s;
    }
  }

  lemma {:induction false} SplitAtQuery(path: string, query: string)
    requires '?' !in path
    ensures SplitOnce(path + ("?" + query), "?") == Split(path, query)
    ensures SplitOnce(path, "?") == NoSplit
  {
    var s := path + "?" + query;
    Assoc(path, "?", query);
    forall j | 0 <= j < |path|
      ensures !At(s, "?", j) && !At(path, "?", j)
    {
      AtFirst(s, "?", j);
      AtFirst(path, "?", j);
    }
    SplitOnceIs(path, "?", query);
    var r := Find(path, "?");
    assert r.Some? ==> At(path, "?", r.value);
  }

  lemma {:induction false} JoinedWithout(parts: seq<string>, c: char, d: char)
    requires d != c && forall i :: 0 <= i < |parts| ==> d !in parts[i]
    ensures d !in Joined(parts, c)
  {
    if |parts| > 1 { JoinedWithout(parts[1..], c, d); }
  }

  /** A printed link is routed on its encoded segments and its parameters, whatever order they were printed in. */
  lemma {:induction false} ParsePrinted(u: NotesmithUrl, pairs: seq<Pair>, upper: bool)
    requires Segments(SegmentsOf(u)) && AsciiPairs(pairs) && Lists(pairs, ParamsOf(u))
    ensures ParseUrl(PrintUrl(u, pairs, upper)) == Route(EncodeAll(SegmentsOf(u), upper), ParamsOf(u))
  {
    hide Route, SegmentsOf, ParamsOf, EncodeAll, Query, QueryParams, Joined, SplitOn, NonEmpty, SplitOnce, Segment;
    var parts := EncodeAll(SegmentsOf(u), upper);
    assert SegmentsOf(u) != [] by { SomeSegments(u); }
    DecodeEncodeAll(SegmentsOf(u), upper);
    var path := Joined(parts, '/');
    assert forall i :: 0 <= i < |parts| ==> Undelimited(parts[i]);
    JoinedWithout(parts, '/', '?');
    SplitJoined(parts, '/');
    NonEmptyKeepsAll(parts);
    QueryRoundTrip(pairs, ParamsOf(u), upper);
    SplitAtQuery(path, Query(pairs, upper));
    var url := PrintUrl(u, pairs, upper);
    assert url[..|SCHEME|] == SCHEME;
    assert url[|SCHEME|..] == path + (if pairs == [] then "" else "?" + Query(pairs, upper));
    if pairs == [] {
      assert path + "" == path;
      assert Query(pairs, upper) == "" by { EmptyQuery(upper); }
    }
  }

  lemma EmptyQuery(upper: bool)
    ensures Query([], upper) == ""
  {
  }

  lemma SomeSegments(u: NotesmithUrl)
    ensures SegmentsOf(u) != []
  {
  }

  lemma {:induction false} PlainNames(upper: bool)
    ensures forall s :: s in {"app", "user", "open", "daily", "search", "new", "capture", "task", "command"} ==> Encode(s, upper) == s
  {
    hide Encode;
    EncodeIsIdentity("app", upper);
    EncodeIsIdentity("user", upper);
    EncodeIsIdentity("open", upper);
    EncodeIsIdentity("daily", upper);
    EncodeIsIdentity("search", upper);
    EncodeIsIdentity("new", upper);
    EncodeIsIdentity("capture", upper);
    EncodeIsIdentity("task", upper);
    EncodeIsIdentity("command", upper);
  }

  /** The segments of a path, encoded, come back as the path. */
  lemma {:induction false} PathRoundTrip(parts: seq<string>, n: nat, path: string, upper: bool)
    requires n <= |parts| && Segments(parts) && parts[n..] == SplitOn(path, '/')
    ensures Joined(DecodedAll(EncodeAll(parts, upper)[n..]), '/') == path
  {
    hide Encode, Decoded, SplitOn, Segment, Joined;
    assert EncodeAll(parts, upper)[n..] == EncodeAll(parts[n..], upper);
    DecodeEncodeAll(parts[n..], upper);
    JoinedSplit(path, '/');
  }

  lemma {:induction false} DecodedPart(parts: seq<string>, i: nat, upper: bool)
    requires i < |parts| && Segments(parts)
    ensures Decoded(EncodeAll(parts, upper)[i]) == parts[i]
  {
    hide Encode, Decoded, EncodeAll;
    assert Segment(parts[i]);
    DecodeEncode(parts[i], upper);
  }

  lemma {:induction false} RoutePrinted(u: NotesmithUrl, upper: bool)
    requires Segments(SegmentsOf(u))
    ensures Route(EncodeAll(SegmentsOf(u), upper), ParamsOf(u)) == Ok(u)
  {
    hide Encode, EncodeAll, Decoded, DecodedAll, SplitOn, Joined, Segments;
    var names := SegmentsOf(u);
    var parts := EncodeAll(names, upper);
    PlainNames(upper);
    assert names[0] in {"app", "user"};
    if u.UserAction? {
      DecodedPart(names, 1, upper);
    } else {
      assert names[1] in {"open", "daily", "search", "new", "capture", "task", "command"};
      DecodedPart(names, 2, upper);
      assert parts[1..][0] == parts[1] && parts[1..][1] == parts[2];
      if u.Open? || u.Task? {
        assert names[3..] == SplitOn(u.path, '/');
        PathRoundTrip(names, 3, u.path, upper);
        assert parts[1..][2..] == parts[3..];
      }
    }
  }

  /** Link parts are ASCII; vault, name and path segments are not empty. */
  ghost predicate ValidUrl(u: NotesmithUrl) {
    Segments(SegmentsOf(u))
  }

  /** Parsing undoes printing, for every link and every order of its parameters. */
  lemma {:induction false} UrlRoundTrip(u: NotesmithUrl, pairs: seq<Pair>, upper: bool)
    requires ValidUrl(u) && AsciiPairs(pairs) && Lists(pairs, ParamsOf(u))
    ensures ParseUrl(PrintUrl(u, pairs, upper)) == Ok(u)
  {
    hide Segments, SegmentsOf, AsciiPairs, Lists, ParamsOf, ParseUrl, PrintUrl, Route;
    ParsePrinted(u, pairs, upper);
    RoutePrinted(u, upper);
  }
}
