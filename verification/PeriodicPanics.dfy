/** Where recognising a periodic note panics: in matching its path, and in the indexer's record of it. */
module PeriodicPanics {
  import opened Text
  import opened Decimal
  import opened Calendar
  import opened Periodic
  import opened PeriodicKeys
  import opened PeriodicNotes

  // ---------- When matching panics ----------

  /** The stem has both ends of the template, but is too short to hold them apart. */
  predicate TooShort(template: string, kind: PeriodKind, stem: string) {
    var t := Around(template, Token(kind), 0);
    t.Template? && HasPrefix(stem, t.prefix) && HasSuffix(stem, t.suffix) && |stem| < |t.prefix| + |t.suffix|
  }

  /** What stands between the ends of the template; the whole stem if they are not its ends, or nothing is between. */
  function Candidate(template: string, kind: PeriodKind, stem: string): string
    requires !TooShort(template, kind, stem)
  {
    var t := Around(template, Token(kind), 0);
    if t.Template? && HasPrefix(stem, t.prefix) && HasSuffix(stem, t.suffix) && |stem| != |t.prefix| + |t.suffix|
    then stem[|t.prefix|..|stem| - |t.suffix|]
    else stem
  }

  /** The key stands for a date in the last month, quarter or week, which the range of dates does not close. */
  predicate AtRangeEnd(kind: PeriodKind, key: string) {
    var d := DateForKey(kind, key);
    d.Some? && Unclosed(kind, d.value)
  }

  predicate KindPanics(template: string, kind: PeriodKind, stem: string) {
    TooShort(template, kind, stem) || AtRangeEnd(kind, Candidate(template, kind, stem))
  }

  lemma {:induction false} MatchKindPanics(kind: PeriodKind, config: KindConfig, stem: string)
    ensures MatchKind(kind, config, stem).MatchPanics? <==> KindPanics(config.filename, kind, stem)
  {
    hide Around, BoundsForKey, DateForKey, Unclosed;
    if !TooShort(config.filename, kind, stem) {
      KeyPanics(kind, Candidate(config.filename, kind, stem));
    }
  }

  /** The kind at index i is the first whose folder is the parent. */
  predicate FirstFolder(c: Config, i: nat, parent: string) {
    && i < |ALL| && FolderMatches(c, ALL[i], parent)
    && forall j :: 0 <= j < i ==> !FolderMatches(c, ALL[j], parent)
  }

  lemma OneFirstFolder(c: Config, i: nat, j: nat, parent: string)
    requires FirstFolder(c, i, parent) && FirstFolder(c, j, parent)
    ensures i == j
  {
    hide FolderMatches;
  }

  lemma {:induction false} NoFolder(c: Config, kinds: seq<PeriodKind>, parent: string, stem: string)
    requires forall j :: 0 <= j < |kinds| ==> !FolderMatches(c, kinds[j], parent)
    ensures MatchAmong(c, kinds, parent, stem) == NoMatch
  {
    hide NormalizeFolder, MatchKind;
    if kinds != [] {
      assert forall j :: 0 <= j < |kinds| - 1 ==> kinds[1..][j] == kinds[j + 1];
      NoFolder(c, kinds[1..], parent, stem);
    }
  }

  lemma {:induction false} FolderCases(c: Config, parent: string, k: nat)
    requires k <= |ALL| && forall j :: 0 <= j < k ==> !FolderMatches(c, ALL[j], parent)
    ensures (exists i: nat :: FirstFolder(c, i, parent)) || (forall j :: 0 <= j < |ALL| ==> !FolderMatches(c, ALL[j], parent))
    decreases |ALL| - k
  {
    hide FolderMatches;
    if k < |ALL| {
      if FolderMatches(c, ALL[k], parent) {
        assert FirstFolder(c, k, parent);
      } else {
        FolderCases(c, parent, k + 1);
      }
    }
  }

  /**
   Matching a path panics exactly when it is a markdown path in some kind's folder and, for the first such
   kind, the stem is too short for its template or the key read from it is at the end of the range of dates.
   */
  lemma {:induction false} MatchPanicsExactly(c: Config, path: string)
    ensures MatchPath(c, path).MatchPanics? <==>
      var parts := SplitParentAndStem(path);
      parts.PathParts? && exists i: nat :: FirstFolder(c, i, parts.parent) && KindPanics(c[ALL[i]].filename, ALL[i], parts.stem)
  {
    hide SplitParentAndStem, MatchKind, KindPanics, NormalizeFolder;
    var parts := SplitParentAndStem(path);
    if parts.PathParts? {
      FolderCases(c, parts.parent, 0);
      if i: nat :| FirstFolder(c, i, parts.parent) {
        FirstFolderDecides(c, ALL, i, parts.parent, parts.stem);
        MatchKindPanics(ALL[i], c[ALL[i]], parts.stem);
        forall j: nat | FirstFolder(c, j, parts.parent)
          ensures j == i
        {
          OneFirstFolder(c, i, j, parts.parent);
        }
      } else {
        NoFolder(c, ALL, parts.parent, parts.stem);
      }
    }
  }

  /** A kind whose template has the same text on both sides panics on the note named by just that text. */
  lemma {:induction false} SharedEndsPanic(
      c: Config, kind: PeriodKind, parent: string, both: string, lead: string, trail: string)
    requires OwnFolder(c, kind, parent) && Blank(lead) && Blank(trail) && both != "" && '/' !in both
    requires c[kind].filename == TemplateText(both, lead, Token(kind), trail, both)
    requires OpensAfter(c[kind].filename, both)
    ensures MatchPath(c, PathOf(parent, both)).MatchPanics?
  {
    hide Around, TemplateText, SplitParentAndStem, NormalizeFolder, PathOf;
    SplitPathOf(parent, both);
    FirstFolderDecides(c, ALL, Index(kind), parent, both);
    AroundToken(both, lead, kind, trail, both);
    assert HasPrefix(both, both) && HasSuffix(both, both);
  }

  /** The note "a.md" in the folder of the daily template "a{{date}}a". */
  lemma {:induction false} ShortStemExample()
    ensures MatchPath(map[Daily := KindConfig("D", "a{{date}}a")], "D/a.md").MatchPanics?
  {
    var c: Config := map[Daily := KindConfig("D", "a{{date}}a")];
    assert TemplateText("a", "", "date", "", "a") == "a{{date}}a";
    assert PathOf("D", "a") == "D/a.md";
    AtFirst("a{{date}}a", "{{", 0);
    SharedEndsPanic(c, Daily, "D", "a", "", "");
  }

  /** The note "262142-12.md" in the folder of the monthly template "{{month}}". */
  lemma {:induction false} RangeEndExample()
    ensures MatchPath(map[Monthly := KindConfig("M", "{{month}}")], "M/262142-12.md").MatchPanics?
  {
    hide MatchKind, SplitParentAndStem;
    var c: Config := map[Monthly := KindConfig("M", "{{month}}")];
    assert PathOf("M", "262142-12") == "M/262142-12.md";
    SplitPathOf("M", "262142-12");
    FirstFolderDecides(c, ALL, Index(Monthly), "M", "262142-12");
    RangeEndKind();
  }

  lemma {:induction false} RangeEndKind()
    ensures MatchKind(Monthly, KindConfig("M", "{{month}}"), "262142-12").MatchPanics?
  {
    hide Around, AtRangeEnd, MatchKind;
    assert TemplateText("", "", "month", "", "") == "{{month}}";
    AroundToken("", "", Monthly, "", "");
    LastMonthKey();
    var stem := "262142-12";
    assert stem[0..|stem| - 0] == stem;
    assert Candidate("{{month}}", Monthly, stem) == stem;
    MatchKindPanics(Monthly, KindConfig("M", "{{month}}"), "262142-12");
  }

  lemma {:induction false} LastMonthKey()
    ensures AtRangeEnd(Monthly, "262142-12")
  {
    hide SplitOnce, MonthStart, Year, Month, DaysBefore;
    assert "262142" + "-" + "12" == "262142-12";
    SplitAtDash("262142", "12");
    LastYearText();
    DayOfYmd(262142, 12, 1);
  }

  lemma LastYearText()
    ensures ParseI32("262142") == Some(262142) && ParseU32("12") == Some(12)
  {
    assert Value("2") == 2;
    assert "26"[..1] == "2" && Value("26") == 26;
    assert "262"[..2] == "26" && Value("262") == 262;
    assert "2621"[..3] == "262" && Value("2621") == 2621;
    assert "26214"[..4] == "2621" && Value("26214") == 26214;
    assert "262142"[..5] == "26214" && Value("262142") == 262142;
    assert "12"[..1] == "1" && Value("1") == 1;
  }

  // ---------- What the indexer records ----------

  function Name(kind: PeriodKind): string {
    match kind
    case Daily => "daily"
    case Weekly => "weekly"
    case Monthly => "monthly"
    case Quarterly => "quarterly"
    case Yearly => "yearly"
  }

  /** The first kind that is the note's type or reads its stem as a key decides. */
  function RecordFromStem(kinds: seq<PeriodKind>, noteType: string, stem: string): NoteMatch {
    if kinds == [] then NoMatch
    else
      var found := BoundsForKey(kinds[0], stem);
      if noteType == Name(kinds[0]) || found != NoPeriod then MatchOf(kinds[0], stem, found)
      else RecordFromStem(kinds[1..], noteType, stem)
  }

  /** The record of a note: its match by path, or else its stem taken as a key. */
  function RecordOf(c: Option<Config>, path: string, noteType: string): NoteMatch {
    var byPath := if c.Some? then MatchPath(c.value, path) else NoMatch;
    if byPath != NoMatch then byPath
    else
      match SplitParentAndStem(path)
      case NotMarkdown => NoMatch
      case PathParts(_, stem) => RecordFromStem(ALL, noteType, stem)
  }

  method ExtractPeriodicNote(c: Option<Config>, path: string, noteType: string) returns (r: NoteMatch)
    ensures r == RecordOf(c, path, noteType)
  {
    hide MatchPath, SplitParentAndStem, BoundsForKey, Name;
    if c.Some? {
      r := MatchNotePath(c.value, path);
      if r != NoMatch {
        return;
      }
    }
    var parts := SplitParentAndStem(path);
    if parts.NotMarkdown? {
      return NoMatch;
    }
    for i := 0 to |ALL|
      invariant RecordFromStem(ALL[i..], noteType, parts.stem) == RecordFromStem(ALL, noteType, parts.stem)
    {
      assert ALL[i..][1..] == ALL[i + 1..];
      var found := BoundsForKey(ALL[i], parts.stem);
      if noteType == Name(ALL[i]) || found != NoPeriod {
        return MatchOf(ALL[i], parts.stem, found);
      }
    }
    return NoMatch;
  }

  /** The stem is at the range end for the kind at index i, and no kind before it decides. */
  predicate StemPanicsAt(kinds: seq<PeriodKind>, noteType: string, stem: string, i: nat) {
    && i < |kinds| && AtRangeEnd(kinds[i], stem)
    && forall j :: 0 <= j < i ==> noteType != Name(kinds[j]) && DateForKey(kinds[j], stem) == None
  }

  lemma {:induction false} StemPanics(kinds: seq<PeriodKind>, noteType: string, stem: string)
    ensures RecordFromStem(kinds, noteType, stem).MatchPanics? <==> exists i: nat :: StemPanicsAt(kinds, noteType, stem, i)
  {
    hide BoundsOf, DateForKey, Name, Unclosed;
    if kinds != [] {
      KeyPanics(kinds[0], stem);
      var decides := noteType == Name(kinds[0]) || DateForKey(kinds[0], stem) != None;
      if AtRangeEnd(kinds[0], stem) {
        assert StemPanicsAt(kinds, noteType, stem, 0);
      } else if !decides {
        StemPanics(kinds[1..], noteType, stem);
        if i: nat :| StemPanicsAt(kinds[1..], noteType, stem, i) {
          assert forall j :: 0 < j < i + 1 ==> kinds[j] == kinds[1..][j - 1];
          assert StemPanicsAt(kinds, noteType, stem, i + 1);
        }
        if i: nat :| StemPanicsAt(kinds, noteType, stem, i) {
          assert forall j :: 0 <= j < i - 1 ==> kinds[1..][j] == kinds[j + 1];
          assert StemPanicsAt(kinds[1..], noteType, stem, i - 1);
        }
      }
    }
  }

  /** Recording a note panics exactly when matching its path does, or the path is no match and its stem is at the range end. */
  lemma {:induction false} RecordPanicsExactly(c: Option<Config>, path: string, noteType: string)
    ensures RecordOf(c, path, noteType).MatchPanics? <==>
      var parts := SplitParentAndStem(path);
      || (c.Some? && MatchPath(c.value, path).MatchPanics?)
      || ((c.Some? ==> MatchPath(c.value, path) == NoMatch) && parts.PathParts?
          && exists i: nat :: StemPanicsAt(ALL, noteType, parts.stem, i))
  {
    hide MatchPath, SplitParentAndStem, RecordFromStem, StemPanicsAt;
    var parts := SplitParentAndStem(path);
    if parts.PathParts? { StemPanics(ALL, noteType, parts.stem); }
  }

  /** So "262142-12.md" panics in any folder that is no kind's. */
  lemma {:induction false} AnyFolderExample(c: Config, folder: string)
    requires forall kind :: !FolderMatches(c, kind, folder)
    ensures RecordOf(Some(c), PathOf(folder, "262142-12"), "note").MatchPanics?
  {
    hide FolderMatches, SplitParentAndStem, PathOf, DateForKey;
    SplitPathOf(folder, "262142-12");
    NoFolder(c, ALL, folder, "262142-12");
    LastMonthKey();
    NotDayOrWeek();
    assert StemPanicsAt(ALL, "note", "262142-12", 2);
    RecordPanicsExactly(Some(c), PathOf(folder, "262142-12"), "note");
  }

  lemma {:induction false} NotDayOrWeek()
    ensures DateForKey(Daily, "262142-12") == None && DateForKey(Weekly, "262142-12") == None
  {
    NotDay();
    NotWeek();
  }

  lemma {:induction false} NotDay()
    ensures ParseYmd("262142-12") == None
  {
    hide Value, ScanNumber, TrimStart, FromYmd, AllDigits;
    assert "2621" + "42-12" == "262142-12";
    assert AllDigits("2621") by { FourDigits(); }
    ScanDigits("2621", "42-12", 4);
  }

  lemma FourDigits()
    ensures AllDigits("2621")
  {
  }

  lemma {:induction false} NotWeek()
    ensures ParseIsoWeekStart("262142-12") == None
  {
    hide ParseI32, ParseU32, FromIsoWeek;
    var s := "262142-12";
    if Find(s, "-W").Some? {
      AtIndex(s, "-W", Find(s, "-W").value, 1);
    }
  }

  /** The types of periodic notes, in the order in which kinds are tried. */
  const NOTE_TYPES := ["daily", "weekly", "monthly", "quarterly", "yearly"]

  /** A note whose path is no match is recorded for the first kind that is its type or reads its stem, if that stem is a key of it. */
  lemma {:induction false} FirstKindRecords(folder: string, stem: string, noteType: string, i: nat)
    requires '/' !in stem && i < |ALL|
    requires noteType == NOTE_TYPES[i] || DateForKey(ALL[i], stem) != None
    requires forall j :: 0 <= j < i ==> noteType != NOTE_TYPES[j] && DateForKey(ALL[j], stem) == None
    ensures RecordOf(None, PathOf(folder, stem), noteType) == MatchOf(ALL[i], stem, BoundsForKey(ALL[i], stem))
  {
    hide SplitParentAndStem, PathOf, DateForKey, BoundsOf;
    SplitPathOf(folder, stem);
    FirstDecides(ALL, stem, noteType, i);
  }

  lemma {:induction false} FirstDecides(kinds: seq<PeriodKind>, stem: string, noteType: string, i: nat)
    requires i < |kinds| && (noteType == Name(kinds[i]) || DateForKey(kinds[i], stem) != None)
    requires forall j :: 0 <= j < i ==> noteType != Name(kinds[j]) && DateForKey(kinds[j], stem) == None
    ensures RecordFromStem(kinds, noteType, stem) == MatchOf(kinds[i], stem, BoundsForKey(kinds[i], stem))
  {
    hide DateForKey, Name, BoundsOf;
    if i > 0 {
      assert forall j :: 0 <= j < i - 1 ==> kinds[1..][j] == kinds[j + 1];
      FirstDecides(kinds[1..], stem, noteType, i - 1);
    }
  }
}
