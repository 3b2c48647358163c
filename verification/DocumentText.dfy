/** Extracted document text: its normal form, and its lossless split into chunks. */
module DocumentText {
  import opened Text

  // ---------- What both operations keep ----------

  /** The characters that are not whitespace, in order. */
  function Ink(s: string): string {
    if s == [] then []
    else if IsSpace(s[0]) then Ink(s[1..])
    else [s[0]] + Ink(s[1..])
  }

  lemma {:induction false} InkConcat(a: string, b: string)
    ensures Ink(a + b) == Ink(a) + Ink(b)
    decreases |a|
  {
    hide IsSpace;
    if a == [] {
      assert a + b == b;
    } else {
      assert (a + b)[1..] == a[1..] + b;
      InkConcat(a[1..], b);
      Assoc([a[0]], Ink(a[1..]), Ink(b));
    }
  }

  lemma {:induction false} InkOfBlank(s: string)
    requires Blank(s)
    ensures Ink(s) == []
  {
    hide IsSpace;
    if s != [] { InkOfBlank(s[1..]); }
  }

  lemma {:induction false} InkOfTrim(s: string)
    ensures Ink(TrimEnd(s)) == Ink(s)
    ensures Ink(Trim(s)) == Ink(s)
  {
    hide IsSpace, TrimStart, TrimEnd;
    InkOfTrimEnd(s);
    var t := TrimStart(s);
    var lead := s[..|s| - |t|];
    assert s == lead + t;
    InkConcat(lead, t);
    InkOfBlank(lead);
    InkOfTrimEnd(t);
  }

  lemma {:induction false} InkOfTrimEnd(s: string)
    ensures Ink(TrimEnd(s)) == Ink(s)
  {
    hide IsSpace, TrimEnd;
    var t := TrimEnd(s);
    assert s == t + s[|t|..];
    InkConcat(t, s[|t|..]);
    InkOfBlank(s[|t|..]);
  }

  // ---------- chunk_text ----------

  datatype DocumentChunk = DocumentChunk(index: nat, charStart: nat, charEnd: nat, text: string)

  datatype Window = Window(start: nat, end: nat)

  /** The last newline in `text[lo..hi]`. */
  function LastNewline(text: string, lo: nat, hi: nat): (r: Option<nat>)
    requires lo <= hi <= |text|
    ensures r.Some? ==> lo <= r.value < hi && text[r.value] == '\n' && forall k :: r.value < k < hi ==> text[k] != '\n'
    ensures r.None? ==> forall k :: lo <= k < hi ==> text[k] != '\n'
    decreases hi - lo
  {
    if lo == hi then None
    else if text[hi - 1] == '\n' then Some(hi - 1)
    else LastNewline(text, lo, hi - 1)
  }

  /** Where the window that starts at `start` ends: after its last newline, unless that would leave nothing or it is the rest. */
  function WindowEnd(text: string, start: nat, target: nat): (e: nat)
    requires start < |text| && target >= 1
    ensures start < e <= |text| && e - start <= target
    ensures start + target >= |text| ==> e == |text|
    ensures start + target < |text| ==>
      (e < start + target ==> text[e - 1] == '\n' && e - 1 > start)
      && forall k :: e <= k < start + target ==> text[k] != '\n'
    ensures start + target < |text| && e == start + target ==>
      text[e - 1] == '\n' || forall k :: start < k < e ==> text[k] != '\n'
  {
    var e := if start + target < |text| then start + target else |text|;
    if e == |text| then e
    else
      var b := LastNewline(text, start, e);
      if b.Some? && b.value > start then b.value + 1 else e
  }

  function Windows(text: string, start: nat, target: nat): seq<Window>
    requires start <= |text| && target >= 1
    decreases |text| - start
  {
    if start == |text| then []
    else
      var e := WindowEnd(text, start, target);
      [Window(start, e)] + Windows(text, e, target)
  }

  predicate InText(text: string, ws: seq<Window>) {
    forall i :: 0 <= i < |ws| ==> ws[i].start < ws[i].end <= |text|
  }

  /** One chunk for each window that is not blank, numbered in order. */
  function ChunksOf(text: string, ws: seq<Window>, index: nat): seq<DocumentChunk>
    requires InText(text, ws)
  {
    if ws == [] then []
    else
      var w := ws[0];
      var slice := Trim(text[w.start..w.end]);
      if slice == [] then ChunksOf(text, ws[1..], index)
      else [DocumentChunk(index, w.start, w.end, slice)] + ChunksOf(text, ws[1..], index + 1)
  }

  function Target(targetChars: nat): (t: nat)
    ensures t >= 1 && (t == targetChars || (targetChars == 0 && t == 1))
  {
    if targetChars < 1 then 1 else targetChars
  }

  lemma {:induction false} WindowsInText(text: string, start: nat, target: nat)
    requires start <= |text| && target >= 1
    ensures InText(text, Windows(text, start, target))
    decreases |text| - start
  {
    hide WindowEnd;
    if start < |text| {
      WindowsInText(text, WindowEnd(text, start, target), target);
    }
  }

  method FindBoundary(text: string, start: nat, end: nat) returns (r: Option<nat>)
    requires start <= end <= |text|
    ensures r == LastNewline(text, start, end)
  {
    var i := end;
    while i > start
      invariant start <= i <= end
      invariant LastNewline(text, start, i) == LastNewline(text, start, end)
    {
      if text[i - 1] == '\n' {
        return Some(i - 1);
      }
      i := i - 1;
    }
    return None;
  }

  method ChunkText(text: string, targetChars: nat) returns (chunks: seq<DocumentChunk>)
    ensures InText(text, Windows(text, 0, Target(targetChars)))
    ensures chunks == ChunksOf(text, Windows(text, 0, Target(targetChars)), 0)
  {
    hide Trim, LastNewline;
    WindowsInText(text, 0, Target(targetChars));
    var target := Target(targetChars);
    var total := |text|;
    chunks := [];
    var startChar := 0;
    var chunkIndex := 0;
    while startChar < total
      invariant startChar <= total && InText(text, Windows(text, startChar, target))
      invariant chunkIndex == |chunks|
      invariant chunks + ChunksOf(text, Windows(text, startChar, target), chunkIndex)
             == ChunksOf(text, Windows(text, 0, target), 0)
    {
      var endChar := if startChar + target < total then startChar + target else total;
      if endChar < total {
        var boundary := FindBoundary(text, startChar, endChar);
        if boundary.Some? && boundary.value > startChar {
          endChar := boundary.value + 1;
        }
      }
      assert endChar == WindowEnd(text, startChar, target);
      WindowsInText(text, endChar, target);
      ghost var rest := Windows(text, endChar, target);
      ghost var all := Windows(text, startChar, target);
      assert all[0] == Window(startChar, endChar) && all[1..] == rest;
      var slice := Trim(text[startChar..endChar]);
      if slice != [] {
        var chunk := DocumentChunk(chunkIndex, startChar, endChar, slice);
        Assoc(chunks, [chunk], ChunksOf(text, rest, chunkIndex + 1));
        chunks := chunks + [chunk];
        chunkIndex := chunkIndex + 1;
      }
      startChar := endChar;
    }
  }

  /** The windows cover the text from `start` to its end without gap or overlap, each within the target. */
  ghost predicate Tiles(ws: seq<Window>, start: nat, end: nat, target: nat) {
    if ws == [] then start == end
    else ws[0].start == start && start < ws[0].end <= start + target && Tiles(ws[1..], ws[0].end, end, target)
  }

  lemma {:induction false} WindowsTile(text: string, start: nat, target: nat)
    requires start <= |text| && target >= 1
    ensures Tiles(Windows(text, start, target), start, |text|, target)
    decreases |text| - start
  {
    hide WindowEnd;
    if start < |text| {
      WindowsTile(text, WindowEnd(text, start, target), target);
    }
  }

  function Texts(cs: seq<DocumentChunk>): string {
    if cs == [] then [] else cs[0].text + Texts(cs[1..])
  }

  /**
   A window ends with the text if that is within the target, else after the last newline within the target that
   is not its first character, else at the target.
   */
  ghost predicate EndsRight(text: string, w: Window, target: nat)
    requires w.start < w.end <= |text|
  {
    if w.start + target >= |text| then w.end == |text|
    else if exists k :: w.start < k < w.start + target && text[k] == '\n' then
      && w.start + 1 < w.end <= w.start + target && text[w.end - 1] == '\n'
      && forall k :: w.end <= k < w.start + target ==> text[k] != '\n'
    else w.end == w.start + target
  }

  /** Every window breaks at its last newline, where it has one to break at. */
  lemma {:induction false} WindowsBreakAtNewlines(text: string, start: nat, target: nat, i: nat)
    requires start <= |text| && target >= 1 && i < |Windows(text, start, target)|
    ensures var w := Windows(text, start, target)[i];
      w.start < w.end <= |text| && EndsRight(text, w, target)
    decreases |text| - start
  {
    var e := WindowEnd(text, start, target);
    if i > 0 {
      WindowsBreakAtNewlines(text, e, target, i - 1);
    }
  }

  /** The chunk texts hold exactly the non-blank characters of the windows they come from. */
  lemma {:induction false} ChunksKeepInk(text: string, ws: seq<Window>, index: nat, start: nat, target: nat)
    requires InText(text, ws) && start <= |text| && Tiles(ws, start, |text|, target)
    ensures Ink(Texts(ChunksOf(text, ws, index))) == Ink(text[start..])
    decreases |ws|
  {
    hide Ink, Trim;
    if ws == [] {
      assert text[start..] == [];
    } else {
      var w := ws[0];
      var part, rest := text[w.start..w.end], text[w.end..];
      assert text[start..] == part + rest;
      InkConcat(part, rest);
      InkOfTrim(part);
      var slice := Trim(part);
      if slice == [] {
        ChunksKeepInk(text, ws[1..], index, w.end, target);
        assert Ink([]) == [] by { InkOfBlank([]); }
        assert Ink(part) == [];
      } else {
        ChunksKeepInk(text, ws[1..], index + 1, w.end, target);
        InkConcat(slice, Texts(ChunksOf(text, ws[1..], index + 1)));
      }
    }
  }

  /** Chunks are numbered consecutively, trimmed and not empty, and follow each other without overlap. */
  lemma {:induction false} ChunksInOrder(text: string, ws: seq<Window>, index: nat, start: nat, target: nat, i: nat)
    requires InText(text, ws) && Tiles(ws, start, |text|, target) && i < |ChunksOf(text, ws, index)|
    ensures var cs := ChunksOf(text, ws, index);
      && cs[i].index == index + i
      && start <= cs[i].charStart < cs[i].charEnd <= |text| && cs[i].charEnd - cs[i].charStart <= target
      && cs[i].text == Trim(text[cs[i].charStart..cs[i].charEnd]) && cs[i].text != []
      && (i > 0 ==> cs[i - 1].charEnd <= cs[i].charStart)
    decreases |ws|
  {
    hide Trim;
    var w := ws[0];
    var slice := Trim(text[w.start..w.end]);
    if slice == [] {
      ChunksInOrder(text, ws[1..], index, w.end, target, i);
    } else if i > 0 {
      ChunksInOrder(text, ws[1..], index + 1, w.end, target, i - 1);
    }
  }

  /** Lossless chunking: the windows tile the text within the target, and the chunks hold all its non-blank characters in order. */
  lemma {:induction false} ChunkingIsLossless(text: string, targetChars: nat)
    ensures var ws := Windows(text, 0, Target(targetChars));
      && InText(text, ws)
      && Tiles(ws, 0, |text|, Target(targetChars))
      && Ink(Texts(ChunksOf(text, ws, 0))) == Ink(text)
  {
    hide Ink, Windows, ChunksOf, Tiles, InText;
    var target := Target(targetChars);
    WindowsInText(text, 0, target);
    WindowsTile(text, 0, target);
    ChunksKeepInk(text, Windows(text, 0, target), 0, 0, target);
    assert text[0..] == text;
  }

  // ---------- normalize_text ----------

  datatype Line = Line(content: string, rest: string)

  /** The first line of `str::lines`, without its "\n" or "\r\n", and what follows it. */
  function FirstLine(s: string): (r: Line)
    requires s != []
    ensures |r.rest| < |s|
  {
    match Find(s, "\n")
    case None => Line(s, [])
    case Some(i) =>
      var end := if i > 0 && s[i - 1] == '\r' then i - 1 else i;
      Line(s[..end], s[i + 1..])
  }

  /** The normalised lines of `s`, each with its newline, after `blankRun` blank lines. */
  function Lines(s: string, blankRun: nat): string
    decreases |s|
  {
    if s == [] then []
    else
      var line := FirstLine(s);
      var trimmed := TrimEnd(line.content);
      if trimmed == [] then
        (if blankRun == 0 then "\n" else "") + Lines(line.rest, blankRun + 1)
      else (trimmed + "\n") + Lines(line.rest, 0)
  }

  function Normalized(raw: string): string {
    Trim(Lines(raw, 0))
  }

  method NormalizeText(raw: string) returns (text: string)
    ensures text == Normalized(raw)
  {
    hide FirstLine, TrimEnd, Trim;
    var out := [];
    var blankRun := 0;
    var rest := raw;
    while rest != []
      invariant out + Lines(rest, blankRun) == Lines(raw, 0)
      decreases |rest|
    {
      var line := FirstLine(rest);
      var trimmed := TrimEnd(line.content);
      if trimmed == [] {
        blankRun := blankRun + 1;
        if blankRun <= 1 {
          Assoc(out, "\n", Lines(line.rest, blankRun));
          out := out + "\n";
        } else {
          assert "" + Lines(line.rest, blankRun) == Lines(line.rest, blankRun);
        }
      } else {
        blankRun := 0;
        Assoc(out, trimmed + "\n", Lines(line.rest, 0));
        Assoc(out, trimmed, "\n");
        out := out + trimmed;
        out := out + "\n";
      }
      rest := line.rest;
    }
    assert out + [] == out;
    text := Trim(out);
  }

  lemma {:induction false} LinesKeepInk(s: string, blankRun: nat)
    ensures Ink(Lines(s, blankRun)) == Ink(s)
    decreases |s|
  {
    hide Ink, TrimEnd, FirstLine;
    if s != [] {
      var line := FirstLine(s);
      var trimmed := TrimEnd(line.content);
      FirstLineInk(s);
      InkOfTrimEnd(line.content);
      InkOfBlank("\n");
      InkOfBlank("");
      if trimmed == [] {
        LinesKeepInk(line.rest, blankRun + 1);
        InkConcat(if blankRun == 0 then "\n" else "", Lines(line.rest, blankRun + 1));
      } else {
        LinesKeepInk(line.rest, 0);
        InkConcat(trimmed + "\n", Lines(line.rest, 0));
        InkConcat(trimmed, "\n");
        assert Ink(trimmed) + [] == Ink(trimmed);
      }
    }
  }

  lemma {:induction false} FirstLineInk(s: string)
    requires s != []
    ensures Ink(s) == Ink(FirstLine(s).content) + Ink(FirstLine(s).rest)
  {
    hide Ink;
    var line := FirstLine(s);
    var end := s[|line.content|..|s| - |line.rest|];
    assert s == line.content + (end + line.rest);
    assert Blank(end);
    InkConcat(line.content, end + line.rest);
    InkConcat(end, line.rest);
    InkOfBlank(end);
  }

  /** Normalising keeps every non-blank character, in order. */
  lemma {:induction false} NormalizeKeepsInk(raw: string)
    ensures Ink(Normalized(raw)) == Ink(raw)
  {
    hide Ink, Trim, Lines;
    LinesKeepInk(raw, 0);
    InkOfTrim(Lines(raw, 0));
  }

  /** No space just before a newline, and no two blank lines in a row: what normalised text looks like everywhere. */
  ghost predicate Tidy(s: string) {
    && (forall i :: 0 < i < |s| && s[i] == '\n' && IsSpace(s[i - 1]) ==> s[i - 1] == '\n')
    && (forall i :: 1 < i < |s| ==> !(s[i] == '\n' && s[i - 1] == '\n' && s[i - 2] == '\n'))
  }

  /** How tidy text may go on after `blankRun` blank lines. */
  ghost predicate Continues(s: string, blankRun: nat) {
    && Tidy(s)
    && (blankRun > 0 ==> s == [] || s[0] != '\n')
    && (|s| >= 2 ==> !(s[0] == '\n' && s[1] == '\n'))
  }

  lemma {:induction false} TidyAfterBlank(s: string)
    requires Continues(s, 1)
    ensures Continues("\n" + s, 0)
  {
    hide IsSpace;
    var t := "\n" + s;
    assert forall i :: 0 < i < |t| ==> t[i] == s[i - 1];
    forall i | 0 < i < |t| && t[i] == '\n' && IsSpace(t[i - 1])
      ensures t[i - 1] == '\n'
    {
      if i > 1 { assert t[i - 1] == s[i - 2]; }
    }
  }

  lemma {:induction false} TidyAfterLine(line: string, s: string)
    requires line != [] && '\n' !in line && !IsSpace(line[|line| - 1]) && Continues(s, 0)
    ensures Continues((line + "\n") + s, 1)
  {
    hide IsSpace;
    var n := |line|;
    var t := (line + "\n") + s;
    assert forall i :: 0 <= i < n ==> t[i] == line[i];
    assert t[n] == '\n';
    assert forall i :: n < i < |t| ==> t[i] == s[i - n - 1];
    forall i | 0 < i < |t| && t[i] == '\n' && IsSpace(t[i - 1])
      ensures t[i - 1] == '\n'
    {
      if i > n + 1 { assert t[i - 1] == s[i - n - 2]; }
    }
    forall i | 1 < i < |t|
      ensures !(t[i] == '\n' && t[i - 1] == '\n' && t[i - 2] == '\n')
    {
      if i > n + 2 { assert t[i - 2] == s[i - n - 3] && t[i - 1] == s[i - n - 2]; }
    }
  }

  lemma {:induction false} FirstLineIs(s: string)
    requires s != []
    ensures '\n' !in FirstLine(s).content
  {
    var r := Find(s, "\n");
    var n := if r.Some? then r.value else |s|;
    forall j | 0 <= j < n
      ensures s[j] != '\n'
    {
      assert !At(s, "\n", j);
      assert s[j..j + 1] == [s[j]];
    }
  }

  /** What the line loop writes is tidy. */
  lemma {:induction false} LinesAreTidy(s: string, blankRun: nat)
    ensures Continues(Lines(s, blankRun), blankRun)
    decreases |s|
  {
    hide TrimEnd, FirstLine, IsSpace, Continues;
    if s == [] {
      assert Continues([], blankRun) by { TidyNothing(blankRun); }
    } else {
      var line := FirstLine(s);
      var trimmed := TrimEnd(line.content);
      FirstLineIs(s);
      if trimmed == [] {
        var more := Lines(line.rest, blankRun + 1);
        LinesAreTidy(line.rest, blankRun + 1);
        ContinuesRun(more, blankRun + 1, 1);
        if blankRun == 0 {
          TidyAfterBlank(more);
        } else {
          assert "" + more == more;
          ContinuesRun(more, 1, blankRun);
        }
      } else {
        LinesAreTidy(line.rest, 0);
        TidyAfterLine(trimmed, Lines(line.rest, 0));
        ContinuesRun(Lines(s, blankRun), 1, blankRun);
      }
    }
  }

  lemma TidyNothing(blankRun: nat)
    ensures Continues([], blankRun)
  {
  }

  lemma ContinuesRun(s: string, a: nat, b: nat)
    requires Continues(s, a) && a > 0
    ensures Continues(s, b)
  {
  }

  lemma {:induction false} TidySlice(s: string, lo: nat, hi: nat)
    requires Tidy(s) && lo <= hi <= |s|
    ensures Tidy(s[lo..hi])
  {
    hide IsSpace;
    var t := s[lo..hi];
    assert forall i :: 0 <= i < |t| ==> t[i] == s[lo + i];
    forall i | 0 < i < |t| && t[i] == '\n' && IsSpace(t[i - 1])
      ensures t[i - 1] == '\n'
    {
      assert s[lo + i] == '\n' && s[lo + i - 1] == t[i - 1];
    }
    forall i | 1 < i < |t|
      ensures !(t[i] == '\n' && t[i - 1] == '\n' && t[i - 2] == '\n')
    {
      assert s[lo + i] == t[i] && s[lo + i - 1] == t[i - 1] && s[lo + i - 2] == t[i - 2];
    }
  }

  /** Normal form: tidy, and neither starting nor ending with a space. */
  ghost predicate Normal(s: string) {
    Tidy(s) && (s != [] ==> !IsSpace(s[0]) && !IsSpace(s[|s| - 1]))
  }

  lemma {:induction false} TrimIsSlice(s: string)
    ensures var t := Trim(s);
      exists lo, hi :: 0 <= lo <= hi <= |s| && t == s[lo..hi]
    ensures Trim(s) != [] ==> !IsSpace(Trim(s)[0]) && !IsSpace(Trim(s)[|Trim(s)| - 1])
  {
    hide IsSpace, TrimStart, TrimEnd;
    var a := TrimStart(s);
    var t := TrimEnd(a);
    var lo := |s| - |a|;
    assert t == a[..|t|] == s[lo..lo + |t|];
  }

  /** Normalising yields a normal form. */
  lemma {:induction false} NormalizedIsNormal(raw: string)
    ensures Normal(Normalized(raw))
  {
    hide Lines, Trim, Tidy;
    var out := Lines(raw, 0);
    LinesAreTidy(raw, 0);
    TrimIsSlice(out);
    var lo, hi :| 0 <= lo <= hi <= |out| && Trim(out) == out[lo..hi];
    TidySlice(out, lo, hi);
  }

  lemma {:induction false} TrimEndIsSelf(s: string)
    requires s != [] && !IsSpace(s[|s| - 1])
    ensures TrimEnd(s) == s
  {
  }

  /** The first line of tidy text is already trimmed, and nothing but its newline lies before the rest. */
  lemma {:induction false} TidyFirstLine(s: string)
    requires s != [] && Tidy(s) && !IsSpace(s[|s| - 1])
    ensures var line := FirstLine(s);
      && TrimEnd(line.content) == line.content
      && (line.rest == [] ==> s == line.content)
      && (line.rest != [] ==> s == line.content + ("\n" + line.rest))
      && (line.rest != [] ==> !IsSpace(line.rest[|line.rest| - 1]) && Tidy(line.rest))
      && (line.content == [] ==> s[0] == '\n')
  {
    hide IsSpace, TrimEnd;
    FirstLineIs(s);
    var r := Find(s, "\n");
    CarriageReturnIsSpace();
    if r.None? {
      TrimEndIsSelf(s);
    } else {
      var i := r.value;
      AtFirst(s, "\n", i);
      NoNewlineBefore(s, i);
      var line := FirstLine(s);
      assert line.content == s[..i];
      assert s == s[..i] + ("\n" + s[i + 1..]);
      assert i + 1 < |s|;
      assert line.rest == s[i + 1..|s|];
      TidySlice(s, i + 1, |s|);
      if i > 0 {
        TrimEndIsSelf(s[..i]);
      } else {
        TrimEndOfNothing();
      }
    }
  }

  lemma TrimEndOfNothing()
    ensures TrimEnd("") == ""
  {
  }

  lemma CarriageReturnIsSpace()
    ensures IsSpace('\r') && IsSpace('\n')
  {
  }

  lemma NoNewlineBefore(s: string, i: nat)
    requires Find(s, "\n") == Some(i)
    ensures i > 0 ==> i < |s| && s[i - 1] != '\n'
  {
    if i > 0 {
      assert !At(s, "\n", i - 1);
      assert s[i - 1..i] == [s[i - 1]];
    }
  }

  /** The line loop rewrites tidy text unchanged, with a final newline. */
  lemma {:induction false} LinesOfTidy(s: string, blankRun: nat)
    requires s != [] && Continues(s, blankRun) && !IsSpace(s[|s| - 1])
    ensures Lines(s, blankRun) == s + "\n"
    decreases |s|
  {
    hide IsSpace, TrimEnd, FirstLine, Tidy;
    var line := FirstLine(s);
    TidyFirstLine(s);
    if line.content == [] {
      assert blankRun == 0;
      assert s == "\n" + line.rest;
      RestContinues(s, [], line.rest, 1);
      LinesOfTidy(line.rest, 1);
      Assoc("\n", line.rest, "\n");
    } else if line.rest == [] {
      assert Lines(line.rest, 0) == [];
      assert (line.content + "\n") + [] == line.content + "\n";
    } else {
      RestContinues(s, line.content, line.rest, 0);
      LinesOfTidy(line.rest, 0);
      Assoc(line.content + "\n", line.rest, "\n");
      Assoc(line.content, "\n", line.rest);
    }
  }

  /** What follows a line of tidy text continues it. */
  lemma {:induction false} RestContinues(s: string, content: string, rest: string, run: nat)
    requires Tidy(s) && s == content + ("\n" + rest) && Tidy(rest) && rest != []
    requires run > 0 ==> content == [] && (|s| >= 2 ==> !(s[0] == '\n' && s[1] == '\n'))
    ensures Continues(rest, run)
  {
    hide IsSpace;
    var n := |content|;
    assert s[n] == '\n' && s[n + 1] == rest[0];
    if |rest| >= 2 {
      assert s[n + 2] == rest[1];
    }
  }

  /** Text in normal form is left as it is. */
  lemma {:induction false} NormalIsFixed(s: string)
    requires Normal(s)
    ensures Normalized(s) == s
  {
    hide IsSpace, Trim, Tidy;
    if s == [] {
      assert Lines(s, 0) == [];
      TrimOfNothing();
    } else {
      FirstTwo(s);
      LinesOfTidy(s, 0);
      TrimNewline(s);
    }
  }

  lemma FirstTwo(s: string)
    requires Normal(s) && s != []
    ensures Continues(s, 0)
  {
  }

  lemma TrimOfNothing()
    ensures Trim("") == ""
  {
  }

  lemma {:induction false} TrimNewline(s: string)
    requires s != [] && !IsSpace(s[0]) && !IsSpace(s[|s| - 1])
    ensures Trim(s + "\n") == s
  {
    hide IsSpace;
    CarriageReturnIsSpace();
    var t := s + "\n";
    assert TrimStart(t) == t;
    assert t[..|t| - 1] == s;
    TrimEndIsSelf(s);
  }

  /** Normalising twice is normalising once. */
  lemma {:induction false} NormalizeIdempotent(raw: string)
    ensures Normalized(Normalized(raw)) == Normalized(raw)
  {
    hide Normalized, Normal;
    NormalizedIsNormal(raw);
    NormalIsFixed(Normalized(raw));
  }

  /** Normalising leaves a text as it is exactly when it is normal already. */
  lemma {:induction false} UnchangedExactly(s: string)
    ensures Normalized(s) == s <==> Normal(s)
  {
    hide Normalized, Normal;
    NormalizedIsNormal(s);
    if Normal(s) { NormalIsFixed(s); }
  }

  // ---------- Paragraphs ----------

  /** The paragraphs of a text: the runs of lines that are not blank, without their trailing spaces, given the lines open so far. */
  function Paragraphs(s: string, open: seq<string>): seq<seq<string>>
    decreases |s|
  {
    var closed := if open == [] then [] else [open];
    if s == [] then closed
    else
      var line := FirstLine(s);
      var trimmed := TrimEnd(line.content);
      if trimmed == [] then closed + Paragraphs(line.rest, [])
      else Paragraphs(line.rest, open + [trimmed])
  }

  lemma {:induction false} FirstLineOf(line: string, rest: string)
    requires '\n' !in line && (line != [] ==> line[|line| - 1] != '\r')
    ensures FirstLine((line + "\n") + rest) == Line(line, rest)
  {
    var s := (line + "\n") + rest;
    assert s[|line|..|line| + 1] == "\n";
    forall j | 0 <= j < |line|
      ensures !At(s, "\n", j)
    {
      AtFirst(s, "\n", j);
      assert s[j] == line[j];
    }
    FindIs(s, "\n", |line|);
    assert s[..|line|] == line && s[|line| + 1..] == rest;
  }

  /** The line loop keeps the paragraphs: their lines, and where blank lines divide them. */
  lemma {:induction false} LinesKeepParagraphs(s: string, blankRun: nat, open: seq<string>)
    requires blankRun > 0 ==> open == []
    ensures Paragraphs(Lines(s, blankRun), open) == Paragraphs(s, open)
    decreases |s|
  {
    hide TrimEnd, FirstLine, IsSpace;
    if s != [] {
      var line := FirstLine(s);
      var trimmed := TrimEnd(line.content);
      FirstLineIs(s);
      if trimmed == [] {
        var more := Lines(line.rest, blankRun + 1);
        LinesKeepParagraphs(line.rest, blankRun + 1, []);
        if blankRun == 0 {
          FirstLineOf("", more);
          TrimEndOfNothing();
          assert ("" + "\n") + more == "\n" + more;
        } else {
          assert "" + more == more;
          assert [] + Paragraphs(line.rest, []) == Paragraphs(line.rest, []);
        }
      } else {
        LinesKeepParagraphs(line.rest, 0, open + [trimmed]);
        TrimmedLine(line.content);
        FirstLineOf(trimmed, Lines(line.rest, 0));
        TrimEndIsSelf(trimmed);
      }
    }
  }

  lemma {:induction false} TrimmedLine(content: string)
    requires '\n' !in content && TrimEnd(content) != []
    ensures var t := TrimEnd(content); '\n' !in t && t[|t| - 1] != '\r' && !IsSpace(t[|t| - 1])
  {
    hide TrimEnd, IsSpace;
    CarriageReturnIsSpace();
  }

  /** Normalising is trimming a tidy text with the same paragraphs. */
  lemma {:induction false} NormalizeKeepsParagraphs(raw: string)
    ensures exists tidy :: Tidy(tidy) && Paragraphs(tidy, []) == Paragraphs(raw, []) && Normalized(raw) == Trim(tidy)
  {
    hide Lines, Trim, Tidy, Paragraphs;
    LinesAreTidy(raw, 0);
    LinesKeepParagraphs(raw, 0, []);
    assert Tidy(Lines(raw, 0));
  }
}
