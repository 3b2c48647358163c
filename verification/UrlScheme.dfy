/** `notesmith://` deep links: percent decoding, query parameters and the route parsers. */
module UrlScheme {
  import opened Text
  import Decimal

  type Params = map<string, string>

  datatype NotesmithUrl =
    | Open(vault: string, path: string)
    | Daily(vault: string)
    | Search(vault: string, query: string)
    | New(vault: string, template: Option<string>, folder: Option<string>)
    | Capture(vault: string, text: string)
    | Task(vault: string, path: string, lineHash: string, status: string)
    | Command(commandName: string, args: Params)
    | UserAction(actionName: string, params: Params)

  datatype UrlParseError =
    | InvalidScheme
    | InvalidNamespace
    | UnknownRoute(route: string)
    | MissingParameter(name: string)
    | Malformed(reason: string)

  type Parsed = Result<NotesmithUrl, UrlParseError>

  // ---------- Percent decoding ----------

  function HexVal(c: char): (r: Option<nat>)
    ensures r.Some? ==> r.value < 16
  {
    if Decimal.IsHexDigit(c) then Some(Decimal.HexDigit(c)) else None
  }

  /** The byte written as two hex digits at offset 1 and 2, if they are there. */
  function HexPair(s: string): (r: Option<nat>)
    ensures r.Some? ==> r.value < 256 && |s| >= 3
  {
    if |s| < 3 then None
    else
      match HexVal(s[1])
      case None => None
      case Some(h) =>
        match HexVal(s[2])
        case None => None
        case Some(l) => Some(16 * h + l)
  }

  /** What follows a '%' and the two characters after it, or nothing when the input ends first. */
  function Skip3(s: string): string {
    if |s| < 3 then [] else s[3..]
  }

  /** Percent decoding, for input whose characters are single bytes. A malformed escape loses the two characters after its '%'. */
  function Decoded(s: string): string
    decreases |s|
  {
    if s == [] then []
    else if s[0] == '%' then
      match HexPair(s)
      case Some(b) => [b as char] + Decoded(Skip3(s))
      case None => ['%'] + Decoded(Skip3(s))
    else if s[0] == '+' then [' '] + Decoded(s[1..])
    else [s[0]] + Decoded(s[1..])
  }

  method PercentDecode(input: string) returns (result: string)
    ensures result == Decoded(input)
  {
    hide HexVal;
    result := [];
    var chars := input;
    while chars != []
      invariant result + Decoded(chars) == Decoded(input)
      decreases |chars|
    {
      var byte := chars[0];
      if byte == '%' {
        var rest := Skip3(chars);
        if |chars| >= 3 {
          var h, l := HexVal(chars[1]), HexVal(chars[2]);
          if h.Some? && l.Some? {
            Assoc(result, [(16 * h.value + l.value) as char], Decoded(rest));
            result := result + [(16 * h.value + l.value) as char];
            chars := rest;
            continue;
          }
        }
        Assoc(result, ['%'], Decoded(rest));
        result := result + ['%'];
        chars := rest;
      } else if byte == '+' {
        Assoc(result, [' '], Decoded(chars[1..]));
        result := result + [' '];
        chars := chars[1..];
      } else {
        Assoc(result, [byte], Decoded(chars[1..]));
        result := result + [byte];
        chars := chars[1..];
      }
    }
  }

  // ---------- Malformed escapes ----------

  /** Decoding that passes a malformed escape through: its '%' and the characters read with it all stay. */
  function PassedThrough(s: string): string
    decreases |s|
  {
    if s == [] then []
    else if s[0] == '%' then
      match HexPair(s)
      case Some(b) => [b as char] + PassedThrough(Skip3(s))
      case None => s[..|s| - |Skip3(s)|] + PassedThrough(Skip3(s))
    else if s[0] == '+' then [' '] + PassedThrough(s[1..])
    else [s[0]] + PassedThrough(s[1..])
  }

  /** Every '%' outside an escape is followed by two hex digits or is the last character. */
  predicate WellEscaped(s: string)
    decreases |s|
  {
    if s == [] then true
    else if s[0] == '%' then (HexPair(s).Some? || |s| == 1) && WellEscaped(Skip3(s))
    else WellEscaped(s[1..])
  }

  /** Malformed escapes pass through exactly when no character follows them; otherwise characters are lost. */
  lemma {:induction false} PassesThroughExactly(s: string)
    ensures Decoded(s) == PassedThrough(s) <==> WellEscaped(s)
    ensures |Decoded(s)| <= |PassedThrough(s)| && (|Decoded(s)| == |PassedThrough(s)| <==> WellEscaped(s))
    decreases |s|
  {
    hide HexPair;
    if s != [] {
      if s[0] == '%' {
        PassesThroughExactly(Skip3(s));
      } else {
        PassesThroughExactly(s[1..]);
      }
    }
  }

  /** For instance, "%zz" decodes to "%". */
  lemma MalformedExample()
    ensures Decoded("%zz") == "%" && PassedThrough("%zz") == "%zz"
  {
  }

  /** Nor is a malformed escape's '%' kept and decoding resumed after it, unless it is last, when no '%' follows at once. */
  lemma {:induction false} NotResumed(s: string)
    requires s != [] && s[0] == '%' && HexPair(s).None?
    requires (|s| > 1 ==> s[1] != '%') && (|s| > 2 ==> s[2] != '%')
    ensures Decoded(s) == "%" + Decoded(s[1..]) <==> |s| == 1
  {
    if |s| >= 3 {
      assert s[1..][1..] == s[2..] && s[2..][1..] == s[3..];
      assert |Decoded(s[1..])| == 2 + |Decoded(s[3..])|;
    } else if |s| == 2 {
      assert Decoded(s[1..]) != [];
    }
  }

  /** With a '%' among the two characters lost, what follows them decides too: "%3%33" seems to resume, "%3%zz" does not. */
  lemma {:induction false} ResumingVaries()
    ensures Decoded("%3%33") == "%" + Decoded("%3%33"[1..])
    ensures Decoded("%3%zz") != "%" + Decoded("%3%zz"[1..])
  {
    assert "%3%33"[1..] == "3%33" && "3%33"[1..] == "%33" && Skip3("%3%33") == "33" && "33"[1..] == "3";
    assert Decoded("33") == "33" && Decoded("%33") == "3";
    assert "%3%zz"[1..] == "3%zz" && "3%zz"[1..] == "%zz" && Skip3("%3%zz") == "zz" && "zz"[1..] == "z";
    assert Decoded("zz") == "zz" && Decoded("%zz") == "%";
    assert Decoded("3%zz") == "3%" && Decoded("%3%zz") == "%zz";
    assert ("%" + "3%")[1] != "%zz"[1];
  }

  // ---------- Splitting ----------

  /** `str::split` on one character. */
  function SplitOn(s: string, c: char): (r: seq<string>)
    ensures r != []
  {
    if s == [] then [""]
    else
      var rest := SplitOn(s[1..], c);
      if s[0] == c then [""] + rest else [[s[0]] + rest[0]] + rest[1..]
  }

  function NonEmpty(parts: seq<string>): seq<string> {
    if parts == [] then []
    else if parts[0] == "" then NonEmpty(parts[1..])
    else [parts[0]] + NonEmpty(parts[1..])
  }

  function DecodedAll(parts: seq<string>): seq<string> {
    if parts == [] then [] else [Decoded(parts[0])] + DecodedAll(parts[1..])
  }

  // ---------- Query parameters ----------

  /** The map after inserting each `key=value` pair in order. */
  function InsertPairs(m: Params, pairs: seq<string>): Params
    decreases |pairs|
  {
    if pairs == [] then m
    else
      match SplitOnce(pairs[0], "=")
      case NoSplit => InsertPairs(m, pairs[1..])
      case Split(k, v) => InsertPairs(m[Decoded(k) := Decoded(v)], pairs[1..])
  }

  function QueryParams(query: string): Params {
    if query == "" then map[] else InsertPairs(map[], SplitOn(query, '&'))
  }

  method ParseQueryParams(query: string) returns (m: Params)
    ensures m == QueryParams(query)
  {
    m := map[];
    if query == "" {
      return;
    }
    var pairs := SplitOn(query, '&');
    for i := 0 to |pairs|
      invariant InsertPairs(m, pairs[i..]) == InsertPairs(map[], pairs)
    {
      assert pairs[i..][1..] == pairs[i + 1..];
      var pair := SplitOnce(pairs[i], "=");
      if pair.Split? {
        var key := PercentDecode(pair.before);
        var value := PercentDecode(pair.after);
        m := m[key := value];
      }
    }
  }

  // ---------- Routes ----------

  function Lookup(m: Params, key: string): Option<string> {
    if key in m then Some(m[key]) else None
  }

  function AppRoute(segments: seq<string>, params: Params): Parsed {
    if segments == [] then Err(Malformed("missing route after app/"))
    else if segments[0] == "open" then
      if |segments| < 3 then Err(MissingParameter("vault and path required for open"))
      else Ok(Open(Decoded(segments[1]), Joined(DecodedAll(segments[2..]), '/')))
    else if segments[0] == "daily" then
      if |segments| < 2 then Err(MissingParameter("vault required for daily"))
      else Ok(Daily(Decoded(segments[1])))
    else if segments[0] == "search" then
      if |segments| < 2 then Err(MissingParameter("vault required for search"))
      else if "q" !in params then Err(MissingParameter("q"))
      else Ok(Search(Decoded(segments[1]), params["q"]))
    else if segments[0] == "new" then
      if |segments| < 2 then Err(MissingParameter("vault required for new"))
      else Ok(New(Decoded(segments[1]), Lookup(params, "template"), Lookup(params, "folder")))
    else if segments[0] == "capture" then
      if |segments| < 2 then Err(MissingParameter("vault required for capture"))
      else if "text" !in params then Err(MissingParameter("text"))
      else Ok(Capture(Decoded(segments[1]), params["text"]))
    else if segments[0] == "task" then
      if |segments| < 3 then Err(MissingParameter("vault and path required for task"))
      else if "line_hash" !in params then Err(MissingParameter("line_hash"))
      else if "status" !in params then Err(MissingParameter("status"))
      else Ok(Task(Decoded(segments[1]), Joined(DecodedAll(segments[2..]), '/'), params["line_hash"], params["status"]))
    else if segments[0] == "command" then
      if |segments| < 2 then Err(MissingParameter("command name required"))
      else Ok(Command(Decoded(segments[1]), params))
    else Err(UnknownRoute(segments[0]))
  }

  function UserRoute(segments: seq<string>, params: Params): Parsed {
    if segments == [] then Err(MissingParameter("action name required for user/"))
    else Ok(UserAction(Decoded(segments[0]), params))
  }

  const SCHEME := "notesmith://"

  function Route(segments: seq<string>, params: Params): Parsed {
    if segments == [] then Err(InvalidNamespace)
    else if segments[0] == "app" then AppRoute(segments[1..], params)
    else if segments[0] == "user" then UserRoute(segments[1..], params)
    else Err(InvalidNamespace)
  }

  function ParseUrl(url: string): Parsed {
    if |url| < |SCHEME| || url[..|SCHEME|] != SCHEME then Err(InvalidScheme)
    else
      var rest := url[|SCHEME|..];
      match SplitOnce(rest, "?")
      case NoSplit => Route(NonEmpty(SplitOn(rest, '/')), QueryParams(""))
      case Split(path, query) => Route(NonEmpty(SplitOn(path, '/')), QueryParams(query))
  }
}
