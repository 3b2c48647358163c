/** Recognising a periodic note by its path: the folder chooses the kind, the filename template the key. */
module PeriodicNotes {
  import opened Text
  import opened Decimal
  import opened Calendar
  import opened Periodic
  import opened PeriodicKeys

  datatype KindConfig = KindConfig(folder: string, filename: string)

  type Config = map<PeriodKind, KindConfig>

  const ALL := [Daily, Weekly, Monthly, Quarterly, Yearly]

  function Token(kind: PeriodKind): string {
    match kind
    case Daily => "date"
    case Weekly => "week"
    case Monthly => "month"
    case Quarterly => "quarter"
    case Yearly => "year"
  }

  // ---------- Paths ----------

  /** `trim_end_matches('/')`. */
  function NormalizeFolder(folder: string): (r: string)
    ensures r <= folder && (forall i :: |r| <= i < |folder| ==> folder[i] == '/')
    ensures r != [] ==> r[|r| - 1] != '/'
  {
    if folder != [] && folder[|folder| - 1] == '/' then NormalizeFolder(folder[..|folder| - 1]) else folder
  }

  datatype PathParts = NotMarkdown | PathParts(parent: string, stem: string)

  /** Where the file name starts: after the last '/'. */
  function NameStart(path: string): (k: nat)
    ensures k <= |path| && '/' !in path[k..]
    ensures k > 0 ==> path[k - 1] == '/'
  {
    if path == [] || path[|path| - 1] == '/' then |path|
    else
      var k := NameStart(path[..|path| - 1]);
      assert path[k..] == path[..|path| - 1][k..] + [path[|path| - 1]];
      k
  }

  function SplitParentAndStem(path: string): PathParts {
    var k := NameStart(path);
    var parent, name := if k == 0 then "" else path[..k - 1], path[k..];
    if |name| < 3 || name[|name| - 3..] != ".md" then NotMarkdown
    else PathParts(parent, name[..|name| - 3])
  }

  // ---------- Filename templates ----------

  datatype Template = NoTemplate | Template(prefix: string, suffix: string)

  /** The offsets of the first `{{` at or after a cursor and of the `}}` that closes it. */
  datatype Variable = NoVariable | Variable(start: nat, end: nat)

  function NextVariable(template: string, cursor: nat): (v: Variable)
    requires cursor <= |template|
    ensures v.Variable? ==> cursor <= v.start && v.start + 2 <= v.end && v.end + 2 <= |template|
  {
    match FindFrom(template, "{{", cursor)
    case None => NoVariable
    case Some(start) =>
      match FindFrom(template, "}}", start + 2)
      case None => NoVariable
      case Some(end) => Variable(start, end)
  }

  /** The text before and after the first `{{ token }}` at or after `cursor`. */
  function Around(template: string, token: string, cursor: nat): Template
    requires cursor <= |template|
    decreases |template| - cursor
  {
    match NextVariable(template, cursor)
    case NoVariable => NoTemplate
    case Variable(start, end) =>
      if Trim(template[start + 2..end]) == token then Template(template[..start], template[end + 2..])
      else Around(template, token, end + 2)
  }

  lemma Extended(s: string, i: nat, j: nat)
    requires i <= j <= |s|
    ensures s[..i] + s[i..j] == s[..j]
  {
  }

  method SplitTemplateAroundToken(template: string, token: string) returns (r: Template)
    ensures r == Around(template, token, 0)
  {
    hide Trim, NextVariable;
    var cursor: nat := 0;
    var prefix := "";
    while true
      invariant cursor <= |template| && prefix == template[..cursor]
      invariant Around(template, token, cursor) == Around(template, token, 0)
      decreases |template| - cursor
    {
      var variable := NextVariable(template, cursor);
      if variable.NoVariable? {
        return NoTemplate;
      }
      var start, end := variable.start, variable.end;
      Extended(template, cursor, start);
      prefix := prefix + template[cursor..start];
      if Trim(template[start + 2..end]) == token {
        return Template(prefix, template[end + 2..]);
      }
      Extended(template, start, end + 2);
      prefix := prefix + template[start..end + 2];
      cursor := end + 2;
    }
  }

  /** The key slice is taken between prefix and suffix; it runs backwards when they overlap in the stem. */
  datatype Extracted = ExtractPanics | Absent | Found(key: string)

  predicate HasPrefix(s: string, p: string) { |p| <= |s| && s[..|p|] == p }

  predicate HasSuffix(s: string, p: string) { |p| <= |s| && s[|s| - |p|..] == p }

  function ExtractKey(template: string, kind: PeriodKind, stem: string): Extracted {
    match Around(template, Token(kind), 0)
    case NoTemplate => Absent
    case Template(prefix, suffix) =>
      if !HasPrefix(stem, prefix) || !HasSuffix(stem, suffix) then Absent
      else if |stem| < |prefix| + |suffix| then ExtractPanics
      else
        var key := stem[|prefix|..|stem| - |suffix|];
        if key == [] then Absent else Found(key)
  }

  /** `extract_period_key`: the extracted key, or the whole stem, if it names a period. */
  function PeriodKey(config: KindConfig, kind: PeriodKind, stem: string): Extracted {
    match ExtractKey(config.filename, kind, stem)
    case ExtractPanics => ExtractPanics
    case Absent => IfPeriod(kind, stem)
    case Found(key) => IfPeriod(kind, key)
  }

  function IfPeriod(kind: PeriodKind, key: string): Extracted {
    match BoundsForKey(kind, key)
    case LookupPanics => ExtractPanics
    case NoPeriod => Absent
    case Period(_) => Found(key)
  }

  datatype NoteMatch =
    | MatchPanics
    | NoMatch
    | Matched(kind: PeriodKind, key: string, bounds: Bounds)

  function MatchKind(kind: PeriodKind, config: KindConfig, stem: string): NoteMatch {
    match PeriodKey(config, kind, stem)
    case ExtractPanics => MatchPanics
    case Absent => NoMatch
    case Found(key) =>
      match BoundsForKey(kind, key)
      case LookupPanics => MatchPanics
      case NoPeriod => NoMatch
      case Period(b) => Matched(kind, key, b)
  }

  predicate FolderMatches(c: Config, kind: PeriodKind, parent: string) {
    kind in c && NormalizeFolder(parent) == NormalizeFolder(c[kind].folder)
  }

  /** The first of the kinds whose folder matches decides. */
  function MatchAmong(c: Config, kinds: seq<PeriodKind>, parent: string, stem: string): NoteMatch {
    if kinds == [] then NoMatch
    else if FolderMatches(c, kinds[0], parent) then MatchKind(kinds[0], c[kinds[0]], stem)
    else MatchAmong(c, kinds[1..], parent, stem)
  }

  function MatchPath(c: Config, path: string): NoteMatch {
    match SplitParentAndStem(path)
    case NotMarkdown => NoMatch
    case PathParts(parent, stem) => MatchAmong(c, ALL, parent, stem)
  }

  method MatchNotePath(c: Config, path: string) returns (r: NoteMatch)
    ensures r == MatchPath(c, path)
  {
    hide MatchKind, SplitParentAndStem, NormalizeFolder;
    var parts := SplitParentAndStem(path);
    if parts.NotMarkdown? {
      return NoMatch;
    }
    for i := 0 to |ALL|
      invariant MatchAmong(c, ALL[i..], parts.parent, parts.stem) == MatchAmong(c, ALL, parts.parent, parts.stem)
    {
      assert ALL[i..][1..] == ALL[i + 1..];
      if ALL[i] !in c {
        continue;
      }
      if NormalizeFolder(parts.parent) != NormalizeFolder(c[ALL[i]].folder) {
        continue;
      }
      return MatchKind(ALL[i], c[ALL[i]], parts.stem);
    }
    return NoMatch;
  }

  // ---------- Round trip ----------

  /** The filename template `prefix{{ token }}suffix`, blanks allowed around the token. */
  function TemplateText(prefix: string, lead: string, token: string, trail: string, suffix: string): string {
    prefix + ("{{" + ((lead + token + trail) + ("}}" + suffix)))
  }

  /** No variable opens before the token's own braces. */
  ghost predicate OpensAfter(template: string, prefix: string) {
    forall j :: 0 <= j < |prefix| ==> !At(template, "{{", j)
  }

  lemma {:induction false} TrimPadded(lead: string, t: string, trail: string)
    requires Blank(lead) && Blank(trail) && t != [] && !IsSpace(t[0]) && !IsSpace(t[|t| - 1])
    ensures Trim(lead + t + trail) == t
  {
    hide IsSpace;
    assert lead + t + trail == lead + (t + trail);
    TrimStartPadded(lead, t + trail);
    TrimEndPadded(t, trail);
  }

  lemma {:induction false} TrimStartPadded(lead: string, s: string)
    requires Blank(lead) && s != [] && !IsSpace(s[0])
    ensures TrimStart(lead + s) == s
  {
    hide IsSpace;
    if lead == [] {
      assert lead + s == s;
    } else {
      assert (lead + s)[1..] == lead[1..] + s;
      TrimStartPadded(lead[1..], s);
    }
  }

  lemma {:induction false} TrimEndPadded(s: string, trail: string)
    requires Blank(trail) && s != [] && !IsSpace(s[|s| - 1])
    ensures TrimEnd(s + trail) == s
  {
    hide IsSpace;
    if trail == [] {
      assert s + trail == s;
    } else {
      var n := |trail| - 1;
      assert (s + trail)[..|s| + n] == s + trail[..n];
      TrimEndPadded(s, trail[..n]);
    }
  }

  lemma FindFromIs(s: string, pat: string, i: nat, k: nat)
    requires i <= k && At(s, pat, k) && forall j :: i <= j < k ==> !At(s, pat, j)
    ensures FindFrom(s, pat, i) == Some(k)
  {
    var r := FindFrom(s, pat, i);
    assert r.Some?;
  }

  lemma TokenText(kind: PeriodKind)
    ensures var t := Token(kind); t != [] && !IsSpace(t[0]) && !IsSpace(t[|t| - 1]) && '}' !in t
  {
  }

  lemma {:induction false} AroundToken(prefix: string, lead: string, kind: PeriodKind, trail: string, suffix: string)
    requires Blank(lead) && Blank(trail)
    requires OpensAfter(TemplateText(prefix, lead, Token(kind), trail, suffix), prefix)
    ensures Around(TemplateText(prefix, lead, Token(kind), trail, suffix), Token(kind), 0) == Template(prefix, suffix)
  {
    hide IsSpace, Trim, Token, FindFrom;
    var inner := lead + Token(kind) + trail;
    var t := TemplateText(prefix, lead, Token(kind), trail, suffix);
    var p := |prefix|;
    TokenText(kind);
    TrimPadded(lead, Token(kind), trail);
    assert t[p..p + 2] == "{{";
    FindFromIs(t, "{{", 0, p);
    var e := p + 2 + |inner|;
    assert t[p + 2..e] == inner;
    assert t[e..e + 2] == "}}";
    assert t[e + 2..] == suffix;
    assert t[..p] == prefix;
    forall j | p + 2 <= j < e
      ensures !At(t, "}}", j)
    {
      AtFirst(t, "}}", j);
      assert t[j] == inner[j - p - 2];
      NoBrace(lead, Token(kind), trail, j - p - 2);
    }
    FindFromIs(t, "}}", p + 2, e);
  }

  lemma NoBrace(lead: string, token: string, trail: string, i: nat)
    requires Blank(lead) && Blank(trail) && '}' !in token && i < |lead + token + trail|
    ensures (lead + token + trail)[i] != '}'
  {
  }

  /** A rendered filename gives back its key. */
  lemma {:induction false} ExtractRendered(template: string, kind: PeriodKind, prefix: string, key: string, suffix: string)
    requires Around(template, Token(kind), 0) == Template(prefix, suffix) && key != []
    ensures ExtractKey(template, kind, prefix + key + suffix) == Found(key)
  {
    hide Around;
    var stem := prefix + key + suffix;
    assert stem[..|prefix|] == prefix && stem[|stem| - |suffix|..] == suffix;
    assert stem[|prefix|..|stem| - |suffix|] == key;
  }

  /** The first kind whose folder matches decides, whether or not its key parses; later kinds are never asked. */
  lemma {:induction false} FirstFolderDecides(c: Config, kinds: seq<PeriodKind>, i: nat, parent: string, stem: string)
    requires i < |kinds| && FolderMatches(c, kinds[i], parent)
    requires forall j :: 0 <= j < i ==> !FolderMatches(c, kinds[j], parent)
    ensures MatchAmong(c, kinds, parent, stem) == MatchKind(kinds[i], c[kinds[i]], stem)
  {
    hide MatchKind, NormalizeFolder;
    if i > 0 {
      assert forall j :: 0 <= j < i - 1 ==> kinds[1..][j] == kinds[j + 1];
      FirstFolderDecides(c, kinds[1..], i - 1, parent, stem);
    }
  }

  /** No other kind has this folder. */
  ghost predicate OwnFolder(c: Config, kind: PeriodKind, parent: string) {
    && FolderMatches(c, kind, parent)
    && forall other :: other != kind ==> !FolderMatches(c, other, parent)
  }

  function Index(kind: PeriodKind): (i: nat)
    ensures i < |ALL| && ALL[i] == kind
  {
    match kind
    case Daily => 0
    case Weekly => 1
    case Monthly => 2
    case Quarterly => 3
    case Yearly => 4
  }

  lemma {:induction false} NameStartIs(path: string, k: nat)
    requires k <= |path| && '/' !in path[k..] && (k > 0 ==> path[k - 1] == '/')
    ensures NameStart(path) == k
  {
    var r := NameStart(path);
    assert forall i :: r <= i < |path| ==> path[i] == path[r..][i - r];
    assert forall i :: k <= i < |path| ==> path[i] == path[k..][i - k];
  }

  /** The path of a note file in a folder; the vault root is the empty folder. */
  function PathOf(parent: string, stem: string): string {
    if parent == "" then stem + ".md" else (parent + "/") + (stem + ".md")
  }

  lemma {:induction false} SplitPathOf(parent: string, stem: string)
    requires '/' !in stem
    ensures SplitParentAndStem(PathOf(parent, stem)) == PathParts(parent, stem)
  {
    hide NameStart;
    var path, name := PathOf(parent, stem), stem + ".md";
    var k := if parent == "" then 0 else |parent| + 1;
    assert path[k..] == name;
    assert k > 0 ==> path[..k - 1] == parent;
    NameStartIs(path, k);
    assert name[|name| - 3..] == ".md" && name[..|name| - 3] == stem;
  }

  lemma {:induction false} KeyIsPlain(kind: PeriodKind, n: Date)
    ensures CurrentKey(kind, n) != [] && '/' !in CurrentKey(kind, n)
  {
    hide Year, Month, Day, IsoYear, IsoWeek, Pad, Print, Quarter, Value;
  }

  /** What matching makes of a looked-up key. */
  function MatchOf(kind: PeriodKind, key: string, found: Lookup): NoteMatch {
    match found
    case LookupPanics => MatchPanics
    case NoPeriod => NoMatch
    case Period(b) => Matched(kind, key, b)
  }

  /**
   The path built from a kind's folder and its template filled with the key of a date's period is
   matched to that kind, that key and the bounds of that period, or panics where computing them does;
   only a key that does not read back is no match.
   */
  lemma {:induction false} MatchRoundTrip(
      c: Config, kind: PeriodKind, n: Date, parent: string,
      prefix: string, lead: string, trail: string, suffix: string)
    requires InRange(n) && OwnFolder(c, kind, parent)
    requires Blank(lead) && Blank(trail) && '/' !in prefix && '/' !in suffix
    requires c[kind].filename == TemplateText(prefix, lead, Token(kind), trail, suffix)
    requires OpensAfter(c[kind].filename, prefix)
    ensures MatchPath(c, PathOf(parent, prefix + CurrentKey(kind, n) + suffix))
         == MatchOf(kind, CurrentKey(kind, n), if ReadsBack(kind, n) then LookupOf(BoundsOf(kind, n)) else NoPeriod)
  {
    hide Year, CurrentKey, BoundsOf, BoundsForKey, SplitParentAndStem, Around, TemplateText, NormalizeFolder, PathOf, ExtractKey, Token, ReadsBack, InRange;
    var key := CurrentKey(kind, n);
    var stem := prefix + key + suffix;
    KeyIsPlain(kind, n);
    SplitPathOf(parent, stem);
    FirstFolderDecides(c, ALL, Index(kind), parent, stem);
    AroundToken(prefix, lead, kind, trail, suffix);
    ExtractRendered(c[kind].filename, kind, prefix, key, suffix);
    KeyRoundTrip(kind, n);
  }

  /** In years 1 to 9999 it is matched. */
  lemma {:induction false} CommonMatchRoundTrip(
      c: Config, kind: PeriodKind, n: Date, parent: string,
      prefix: string, lead: string, trail: string, suffix: string)
    requires 1 <= Year(n) <= 9999 && OwnFolder(c, kind, parent)
    requires Blank(lead) && Blank(trail) && '/' !in prefix && '/' !in suffix
    requires c[kind].filename == TemplateText(prefix, lead, Token(kind), trail, suffix)
    requires OpensAfter(c[kind].filename, prefix)
    ensures MatchPath(c, PathOf(parent, prefix + CurrentKey(kind, n) + suffix))
         == Matched(kind, CurrentKey(kind, n), PeriodBounds(kind, n))
  {
    hide Year, CurrentKey, BoundsOf, MatchPath, TemplateText, PathOf, Token, ReadsBack, InRange, OwnFolder, PeriodBounds, Unclosed;
    CommonYearsReadBack(kind, n);
    MatchRoundTrip(c, kind, n, parent, prefix, lead, trail, suffix);
    BoundsOfDate(kind, n);
  }

  // ---------- Names ----------

  /** A path is taken for a markdown note exactly when it ends in ".md". */
  lemma {:induction false} MarkdownBySuffix(path: string)
    ensures SplitParentAndStem(path).PathParts? <==> HasSuffix(path, ".md")
  {
    hide NameStart;
    var k := NameStart(path);
    var name := path[k..];
    if HasSuffix(path, ".md") {
      assert path[|path| - 3..] == ".md";
      assert forall i :: |path| - 3 <= i < |path| ==> path[i] == ".md"[i - (|path| - 3)];
      assert k > 0 ==> path[k - 1] == '/';
      assert k <= |path| - 3;
      assert name[|name| - 3..] == path[|path| - 3..];
    } else if |name| >= 3 {
      assert name[|name| - 3..] == path[|path| - 3..];
    }
  }

  /** The default filename of each kind. */
  function DefaultFilename(kind: PeriodKind): string {
    match kind
    case Daily => "{{ date }}"
    case Weekly => "Week {{ week }}"
    case Monthly => "{{ month }}"
    case Quarterly => "{{ quarter }}"
    case Yearly => "{{ year }}"
  }

  /** With the default filename, a kind's notes are named by their keys, weekly ones with "Week" in front. */
  lemma {:induction false} DefaultMatchRoundTrip(c: Config, kind: PeriodKind, n: Date, parent: string)
    requires 1 <= Year(n) <= 9999 && OwnFolder(c, kind, parent) && c[kind].filename == DefaultFilename(kind)
    ensures MatchPath(c, PathOf(parent, (if kind.Weekly? then "Week " else "") + CurrentKey(kind, n)))
         == Matched(kind, CurrentKey(kind, n), PeriodBounds(kind, n))
  {
    hide MatchPath, CurrentKey, PeriodBounds, OwnFolder, Year, PathOf;
    var prefix := if kind.Weekly? then "Week " else "";
    DefaultIsTemplate(kind);
    CommonMatchRoundTrip(c, kind, n, parent, prefix, " ", " ", "");
    assert prefix + CurrentKey(kind, n) + "" == prefix + CurrentKey(kind, n);
  }

  lemma {:induction false} DefaultIsTemplate(kind: PeriodKind)
    ensures var prefix := if kind.Weekly? then "Week " else "";
      && DefaultFilename(kind) == TemplateText(prefix, " ", Token(kind), " ", "")
      && OpensAfter(DefaultFilename(kind), prefix) && '/' !in prefix && Blank(" ")
  {
    match kind {
      case Daily => assert "{{ date }}" == "" + ("{{" + ((" " + "date" + " ") + ("}}" + "")));
      case Weekly =>
        assert "Week {{ week }}" == "Week " + ("{{" + ((" " + "week" + " ") + ("}}" + "")));
        forall j | 0 <= j < |"Week "|
          ensures !At("Week {{ week }}", "{{", j)
        {
          AtFirst("Week {{ week }}", "{{", j);
        }
      case Monthly => assert "{{ month }}" == "" + ("{{" + ((" " + "month" + " ") + ("}}" + "")));
      case Quarterly => assert "{{ quarter }}" == "" + ("{{" + ((" " + "quarter" + " ") + ("}}" + "")));
      case Yearly => assert "{{ year }}" == "" + ("{{" + ((" " + "year" + " ") + ("}}" + "")));
    }
  }
}
