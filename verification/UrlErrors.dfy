/** Deep links that are not printed links: which are refused and how, and how escapes, blanks and repeats are read. */
module UrlErrors {
  import opened Text
  import opened UrlScheme
  import opened UrlPrinting

  // ---------- Characters ----------

  /** Every byte written as an escape is read as the character with its number; '+' is a space; what is neither is itself. */
  lemma {:induction false} DecodeEach(h: nat, l: nat, upperH: bool, upperL: bool, c: char, rest: string)
    requires h < 16 && l < 16
    ensures Decoded(['%', HexChar(h, upperH), HexChar(l, upperL)] + rest) == [(16 * h + l) as char] + Decoded(rest)
    ensures Decoded("+" + rest) == " " + Decoded(rest)
    ensures c != '%' && c != '+' ==> Decoded([c] + rest) == [c] + Decoded(rest)
  {
    hide HexChar, HexVal;
    var s := ['%', HexChar(h, upperH), HexChar(l, upperL)] + rest;
    HexRoundTrip(h, upperH);
    HexRoundTrip(l, upperL);
    assert s[1] == HexChar(h, upperH) && s[2] == HexChar(l, upperL) && s[3..] == rest;
    assert ("+" + rest)[1..] == rest && ([c] + rest)[1..] == rest;
  }

  // ---------- Repeated parameters ----------

  /** The value of the last pair with a key. */
  ghost predicate LastValue(pairs: seq<Pair>, key: string, value: string) {
    exists i :: 0 <= i < |pairs| && pairs[i] == Pair(key, value) && forall j :: i < j < |pairs| ==> pairs[j].key != key
  }

  ghost predicate Given(pairs: seq<Pair>, key: string) {
    exists i :: 0 <= i < |pairs| && pairs[i].key == key
  }

  lemma LastOfMore(p: Pair, rest: seq<Pair>, k: string)
    ensures Given([p] + rest, k) <==> p.key == k || Given(rest, k)
    ensures forall v :: LastValue(rest, k, v) ==> LastValue([p] + rest, k, v)
    ensures p.key == k && !Given(rest, k) ==> LastValue([p] + rest, k, p.value)
  {
    var all := [p] + rest;
    assert forall i :: 1 <= i < |all| ==> all[i] == rest[i - 1];
    if Given(rest, k) {
      var i :| 0 <= i < |rest| && rest[i].key == k;
      assert all[i + 1].key == k;
    }
    forall v | LastValue(rest, k, v)
      ensures LastValue(all, k, v)
    {
      var i :| 0 <= i < |rest| && rest[i] == Pair(k, v) && forall j :: i < j < |rest| ==> rest[j].key != k;
      assert all[i + 1] == rest[i];
    }
    if p.key == k {
      assert all[0] == p;
    }
  }

  lemma {:induction false} InsertRepeated(m: Params, pairs: seq<Pair>, upper: bool, k: string)
    requires AsciiPairs(pairs)
    ensures var r := InsertPairs(m, PrintPairs(pairs, upper));
      if Given(pairs, k) then k in r && LastValue(pairs, k, r[k])
      else (k in r <==> k in m) && (k in m ==> r[k] == m[k])
    decreases |pairs|
  {
    hide Encode, PrintPair, SplitOnce, Decoded, Given, LastValue;
    if pairs == [] {
      assert !Given(pairs, k) by { NoneGiven(k); }
    } else {
      var p, rest := pairs[0], pairs[1..];
      SplitPair(p, upper);
      DecodeEncode(p.key, upper);
      DecodeEncode(p.value, upper);
      InsertRepeated(m[p.key := p.value], rest, upper, k);
      assert pairs == [p] + rest;
      LastOfMore(p, rest, k);
    }
  }

  lemma NoneGiven(k: string)
    ensures !Given([], k)
  {
  }

  /** Of pairs with one key, wherever they stand in the query, the last is read. */
  lemma {:induction false} LastPairWins(pairs: seq<Pair>, upper: bool, k: string)
    requires pairs != [] && AsciiPairs(pairs)
    ensures var m := QueryParams(Query(pairs, upper));
      (k in m <==> Given(pairs, k)) && (k in m ==> LastValue(pairs, k, m[k]))
  {
    hide PrintPair, InsertPairs, SplitOn, Joined, Given, LastValue;
    var parts := PrintPairs(pairs, upper);
    forall i | 0 <= i < |parts|
      ensures '&' !in parts[i] && parts[i] != ""
    {
      PairPlain(pairs[i], upper);
    }
    SplitJoined(parts, '&');
    JoinedNotEmpty(parts);
    InsertRepeated(map[], pairs, upper, k);
  }

  // ---------- Blank segments ----------

  lemma {:induction false} SplitConcat(a: string, b: string, c: char)
    ensures SplitOn(a + ([c] + b), c) == SplitOn(a, c) + SplitOn(b, c)
    decreases |a|
  {
    if a == [] {
      assert ([] + ([c] + b)) == [c] + b && ([c] + b)[1..] == b;
    } else {
      assert (a + ([c] + b))[1..] == a[1..] + ([c] + b);
      SplitConcat(a[1..], b, c);
      var p, q := SplitOn(a[1..], c), SplitOn(b, c);
      assert (p + q)[0] == p[0] && (p + q)[1..] == p[1..] + q;
      if a[0] == c {
        Assoc([""], p, q);
      } else {
        Assoc([[a[0]] + p[0]], p[1..], q);
      }
    }
  }

  lemma {:induction false} NonEmptyConcat(a: seq<string>, b: seq<string>)
    ensures NonEmpty(a + b) == NonEmpty(a) + NonEmpty(b)
  {
    if a == [] {
      assert a + b == b;
    } else {
      assert (a + b)[1..] == a[1..] + b;
      NonEmptyConcat(a[1..], b);
      if a[0] != "" { Assoc([a[0]], NonEmpty(a[1..]), NonEmpty(b)); }
    }
  }

  /** A slash more, in front, at the end or in between, changes no segment. */
  lemma {:induction false} SlashesCollapse(a: string, b: string)
    ensures NonEmpty(SplitOn(a + ("/" + ("/" + b)), '/')) == NonEmpty(SplitOn(a + ("/" + b), '/'))
    ensures NonEmpty(SplitOn("/" + b, '/')) == NonEmpty(SplitOn(b, '/'))
    ensures NonEmpty(SplitOn(a + "/", '/')) == NonEmpty(SplitOn(a, '/'))
  {
    hide SplitOn, NonEmpty;
    SplitConcat(a, "/" + b, '/');
    SplitConcat(a, b, '/');
    SplitConcat("", b, '/');
    SplitConcat(a, "", '/');
    assert "" + ("/" + b) == "/" + b && a + ("/" + "") == a + "/";
    NonEmptyConcat(SplitOn(a, '/'), SplitOn("/" + b, '/'));
    NonEmptyConcat(SplitOn(a, '/'), SplitOn(b, '/'));
    NonEmptyConcat(SplitOn("", '/'), SplitOn(b, '/'));
    NonEmptyConcat(SplitOn(a, '/'), SplitOn("", '/'));
    NothingInNothing();
    assert NonEmpty(SplitOn(a, '/')) + [] == NonEmpty(SplitOn(a, '/'));
    assert [] + NonEmpty(SplitOn(b, '/')) == NonEmpty(SplitOn(b, '/'));
  }

  lemma NothingInNothing()
    ensures NonEmpty(SplitOn("", '/')) == []
  {
  }

  // ---------- Refusals ----------

  /** The app routes, with the segments each needs after its name. */
  const SEGMENTS_NEEDED: map<string, nat> :=
    map["open" := 2, "daily" := 1, "search" := 1, "new" := 1, "capture" := 1, "task" := 2, "command" := 1]

  /** What is said when they are missing. */
  const SEGMENTS_MISSING: map<string, string> :=
    map["open" := "vault and path required for open", "daily" := "vault required for daily",
        "search" := "vault required for search", "new" := "vault required for new",
        "capture" := "vault required for capture", "task" := "vault and path required for task",
        "command" := "command name required"]

  /** The parameters a route needs, in the order they are asked for. */
  function ParamsNeeded(route: string): seq<string> {
    if route == "search" then ["q"]
    else if route == "capture" then ["text"]
    else if route == "task" then ["line_hash", "status"]
    else []
  }

  /** The first parameter needed that is not there. */
  function FirstMissing(needed: seq<string>, params: Params): Option<string> {
    if needed == [] then None
    else if needed[0] !in params then Some(needed[0])
    else FirstMissing(needed[1..], params)
  }

  /**
   A link is accepted exactly when it names a known app route with the segments and parameters that route needs, or a
   user action; otherwise the refusal says which of these fails first.
   */
  lemma {:induction false} RouteDecided(segments: seq<string>, params: Params)
    ensures var r := Route(segments, params);
      if segments == [] || segments[0] !in {"app", "user"} then r == Err(InvalidNamespace)
      else if segments[0] == "user" then
        if |segments| == 1 then r == Err(MissingParameter("action name required for user/")) else r == Ok(UserAction(Decoded(segments[1]), params))
      else if |segments| == 1 then r == Err(Malformed("missing route after app/"))
      else if segments[1] !in SEGMENTS_NEEDED then r == Err(UnknownRoute(segments[1]))
      else if |segments| - 2 < SEGMENTS_NEEDED[segments[1]] then r == Err(MissingParameter(SEGMENTS_MISSING[segments[1]]))
      else
        match FirstMissing(ParamsNeeded(segments[1]), params)
        case Some(name) => r == Err(MissingParameter(name))
        case None => r.Ok?
  {
    hide Decoded, DecodedAll, Joined;
    if |segments| > 1 && segments[0] == "app" {
      assert segments[1..][0] == segments[1];
      Missing(segments[1], params);
    }
  }

  lemma Missing(route: string, params: Params)
    ensures FirstMissing(ParamsNeeded(route), params)
         == if route == "search" && "q" !in params then Some("q")
            else if route == "capture" && "text" !in params then Some("text")
            else if route == "task" && "line_hash" !in params then Some("line_hash")
            else if route == "task" && "status" !in params then Some("status")
            else None
  {
    OneNeeded("q", params);
    OneNeeded("text", params);
    OneNeeded("status", params);
    assert ["line_hash", "status"][1..] == ["status"];
  }

  lemma OneNeeded(name: string, params: Params)
    ensures FirstMissing([name], params) == if name in params then None else Some(name)
  {
    assert [name][1..] == [];
  }

  /** A link of another scheme is refused as such; any other is routed on its segments and parameters. */
  lemma {:induction false} SchemeDecided(path: string, query: string, other: string)
    requires '?' !in path
    ensures ParseUrl("notesmith://" + path) == Route(NonEmpty(SplitOn(path, '/')), map[])
    ensures ParseUrl("notesmith://" + (path + ("?" + query))) == Route(NonEmpty(SplitOn(path, '/')), QueryParams(query))
    ensures ParseUrl(other) == Err(InvalidScheme) <==> !("notesmith://" <= other)
  {
    hide SplitOn, NonEmpty, InsertPairs, SplitOnce;
    hide Decoded, DecodedAll, Joined;
    SplitAtQuery(path, query);
    var a, b := "notesmith://" + path, "notesmith://" + (path + ("?" + query));
    assert a[..|SCHEME|] == SCHEME && a[|SCHEME|..] == path;
    assert b[..|SCHEME|] == SCHEME && b[|SCHEME|..] == path + ("?" + query);
  }
}
