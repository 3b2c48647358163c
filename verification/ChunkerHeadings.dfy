/** Headings: each heading line opens a unit, and each such unit within the limit starts a span of its own. */
module ChunkerHeadings {
  import opened Text
  import opened ChunkerLoops
  import opened ChunkerUnits
  import opened ChunkerChain
  import opened Chunker

  /** A span starts at `at`. */
  ghost predicate StartsAt(spans: seq<ChunkSpan>, at: nat) {
    exists k :: 0 <= k < |spans| && spans[k].charStart == at
  }

  /** No span has `at` strictly inside it. */
  ghost predicate NeverInside(spans: seq<ChunkSpan>, at: nat) {
    forall k :: 0 <= k < |spans| ==> !(spans[k].charStart < at < spans[k].charEnd)
  }

  /** A heading unit lies strictly inside no span but one whose first unit comes before it and last not before it. */
  lemma {:induction false} InsideByIndex(body: string, us: seq<Unit>, i: nat, j: nat, h: nat, z: Sizes)
    requires Packed(body, us, z) && i < j <= |us| && h < |us| && us[h].heading
    ensures us[i].start < us[h].start < us[j - 1].end ==> i < h < j
  {
    hide Rank, Cut, IsSpace, Packable;
    var last := Rank(body, |body|);
    if h <= i {
      ChainAdvances(body, us, 0, last, z, h, i);
      assert Small(body, us[h], z) && Small(body, us[i], z);
      RankOrder(body, us[h].start, us[i].start);
    } else if j <= h {
      LinkAt(body, us, h, z);
      ChainAdvances(body, us, 0, last, z, j - 1, h - 1);
      assert Small(body, us[j - 1], z);
      RankOrder(body, us[h].start, us[j - 1].end);
    }
  }

  lemma {:induction false} PackHeadings(body: string, us: seq<Unit>, i: nat, h: nat, z: Sizes)
    requires Packed(body, us, z) && i < |us| && h < |us| && us[h].heading
    ensures i <= h ==> StartsAt(Pack(body, us, i, z), us[h].start)
    ensures NeverInside(Pack(body, us, i, z), us[h].start)
    decreases |us| - i
  {
    hide Rank, Cut, IsSpace, Fill, Next, Chain, Packable;
    var j := Fill(us, i, 0, z);
    ChainWords(body, us, z);
    NextSpan(us, i, z);
    InsideByIndex(body, us, i, j, h, z);
    var s := SpanOf(body, us, i, j);
    var spans := Pack(body, us, i, z);
    assert spans[0] == s;
    if j < |us| {
      var n := Next(us, i, j, z);
      PackHeadings(body, us, n, h, z);
      var rest := Pack(body, us, n, z);
      assert spans == [s] + rest;
      if i < h {
        var k :| 0 <= k < |rest| && rest[k].charStart == us[h].start;
        assert spans[k + 1] == rest[k];
      }
    }
  }

  lemma {:induction false} FitAllKeeps(body: string, us: seq<Unit>, u: Unit, z: Sizes)
    requires z.Valid() && InBody(body, us) && u in us && u.words <= z.max
    ensures u in FitAll(body, us, z)
  {
    if us[0] != u {
      FitAllKeeps(body, us[1..], u, z);
    }
  }

  /** Every heading unit within the limit is the first unit of some span and inside no other. */
  lemma {:induction false} HeadingsStartSpans(body: string, opts: Options, u: Unit)
    requires ValidOpen(body, NoneOpen) && u in UnitsFrom(body, 0, NoneOpen)
    requires u.heading && u.words <= Clamped(opts).max
    ensures StartsAt(Chunks(body, opts), u.start)
    ensures NeverInside(Chunks(body, opts), u.start)
  {
    hide UnitsFrom, FitAll, Pack, Packable, Packed, StartsAt, NeverInside;
    var z := Clamped(opts);
    UnitsPacked(body, z);
    var us := UnitsFrom(body, 0, NoneOpen);
    FitAllKeeps(body, us, u, z);
    var fitted := FitAll(body, us, z);
    var h :| 0 <= h < |fitted| && fitted[h] == u;
    PackHeadings(body, fitted, 0, h, z);
  }

  // ---------- From lines to units ----------

  /** A line starts at `p` and its first non-space character is '#'. */
  predicate HeadingLine(body: string, p: nat) {
    && p < |body| && LineStart(body, p)
    && StartsWith(Trim(body[p..LineEnd(body, p)]), '#')
  }

  lemma TrimHead(s: string)
    ensures Trim(s) != [] ==> TrimStart(s) != [] && Trim(s)[0] == TrimStart(s)[0]
  {
  }

  lemma {:induction false} TrimStartIs(s: string, k: nat)
    requires k < |s| && !IsSpace(s[k])
    requires forall i :: 0 <= i < k ==> IsSpace(s[i])
    ensures TrimStart(s) == s[k..]
  {
    if k > 0 {
      TrimStartIs(s[1..], k - 1);
    }
  }

  /** A range that opens with a heading line's content makes a heading unit. */
  lemma {:induction false} HeadingRange(body: string, p: nat, end: nat)
    requires HeadingLine(body, p)
    requires p + |TrimEnd(body[p..LineEnd(body, p)])| <= end <= |body|
    ensures StartsWith(TrimStart(body[p..end]), '#')
  {
    hide IsSpace, LineEnd, TrimStart, TrimEnd, Trim;
    var line := body[p..LineEnd(body, p)];
    TrimHead(line);
    ContentEnd(body, p);
    HeadInContent(line);
    var lead := |line| - |TrimStart(line)|;
    var range := body[p..end];
    assert forall k :: 0 <= k <= lead ==> range[k] == line[k];
    TrimStartIs(range, lead);
    assert range[lead] == '#';
  }

  /** The first non-space character comes before the trailing spaces. */
  lemma {:induction false} HeadInContent(line: string)
    requires TrimStart(line) != []
    ensures var lead := |line| - |TrimStart(line)|;
      lead < |TrimEnd(line)| && line[lead] == TrimStart(line)[0]
  {
    hide IsSpace, TrimStart, TrimEnd;
    var lead := |line| - |TrimStart(line)|;
    var n := |TrimEnd(line)|;
    assert forall k :: n <= k < |line| ==> line[k] == line[n..][k - n];
  }

  /** The unit open since `p` is pushed in the end, with its start unchanged. */
  lemma {:induction false} OpenIsPushed(body: string, pos: nat, open: Open, p: nat)
    requires OpenSound(body, pos, open) && open.Open? && open.start == p && ValidOpen(body, open)
    requires HeadingLine(body, p) && p + |TrimEnd(body[p..LineEnd(body, p)])| <= open.end
    ensures exists u :: u in UnitsFrom(body, pos, open) && u.start == p && u.heading
    decreases |body| - pos
  {
    hide Rank, Cut, Trim, TrimEnd, TrimStart, LineEnd, IsSpace, UnitOf;
    UnitOfSound(body, p, open.end);
    HeadingRange(body, p, open.end);
    var own := UnitOf(body, p, open.end);
    assert own[0].heading by { UnitOfHeading(body, p, open.end); }
    assert own[0] in own;
    if pos < |body| {
      var step := Advance(body, pos, open);
      LineTiles(body, pos, open);
      ContentEnd(body, pos);
      if step.closed == [] {
        OpenIsPushed(body, LineEnd(body, pos), step.open, p);
      } else {
        assert own[0] in UnitsFrom(body, pos, open);
      }
    }
  }

  lemma UnitOfHeading(body: string, start: nat, end: nat)
    requires start <= end <= |body| && UnitOf(body, start, end) != []
    ensures UnitOf(body, start, end)[0].heading == StartsWith(TrimStart(body[start..end]), '#')
  {
  }

  lemma {:induction false} HeadingOpens(body: string, pos: nat, open: Open, p: nat)
    requires OpenSound(body, pos, open) && ValidOpen(body, open) && pos <= p && HeadingLine(body, p)
    ensures exists u :: u in UnitsFrom(body, pos, open) && u.start == p && u.heading
    decreases |body| - pos
  {
    hide Rank, Cut, Trim, TrimEnd, TrimStart, IsSpace, UnitOf;
    var step := Advance(body, pos, open);
    var next := LineEnd(body, pos);
    LineTiles(body, pos, open);
    ContentEnd(body, pos);
    if pos == p {
      OpenIsPushed(body, next, step.open, p);
    } else {
      HeadingOpens(body, next, step.open, p);
    }
    var u :| u in UnitsFrom(body, next, step.open) && u.start == p && u.heading;
    assert u in UnitsFrom(body, pos, open);
  }

  /** Every heading line opens a heading unit at its own start. */
  lemma {:induction false} HeadingLinesAreUnits(body: string, p: nat)
    requires HeadingLine(body, p)
    ensures ValidOpen(body, NoneOpen)
    ensures exists u :: u in UnitsFrom(body, 0, NoneOpen) && u.start == p && u.heading
  {
    Start(body);
    HeadingOpens(body, 0, NoneOpen, p);
  }

  // ---------- Where units begin and end ----------

  predicate BlankLine(body: string, p: nat) {
    p < |body| && LineStart(body, p) && Blank(body[p..LineEnd(body, p)])
  }

  /** The line that ends at `p` is blank. */
  ghost predicate AfterBlankLine(body: string, p: nat) {
    exists q :: 0 <= q < p && BlankLine(body, q) && LineEnd(body, q) == p
  }

  /** A paragraph or section may start at `p`: at a heading, after a blank line, or at the front. */
  ghost predicate Fresh(body: string, p: nat) {
    p == 0 || AfterBlankLine(body, p) || HeadingLine(body, p)
  }

  /** No line that starts between `p` and `q`, both exclusive, is blank or a heading. */
  ghost predicate Unbroken(body: string, p: nat, q: nat) {
    forall k :: p < k < q && LineStart(body, k) ==> !BlankLine(body, k) && !HeadingLine(body, k)
  }

  /** A unit starts where a paragraph or section does, is a heading unit exactly at a heading, and runs unbroken. */
  ghost predicate WholeBlock(body: string, u: Unit) {
    && LineStart(body, u.start) && Fresh(body, u.start) && Unbroken(body, u.start, u.end)
    && (u.heading <==> HeadingLine(body, u.start))
  }

  /** The unit open before the line at `pos` is a block as far as that; with none open a block may start there. */
  ghost predicate OpenBlock(body: string, pos: nat, open: Open) {
    && LineStart(body, pos)
    && match open
       case NoneOpen => pos == |body| || pos == 0 || AfterBlankLine(body, pos)
       case Open(start, end) =>
         && start < pos && LineStart(body, start) && Fresh(body, start) && Unbroken(body, start, pos)
         && Trim(body[start..LineEnd(body, start)]) != []
         && start + |TrimEnd(body[start..LineEnd(body, start)])| <= end <= pos
  }

  /** Nothing but the first line decides the first character of a range that holds its content. */
  lemma {:induction false} FirstCharacter(body: string, p: nat, end: nat)
    requires p < |body| && Trim(body[p..LineEnd(body, p)]) != []
    requires p + |TrimEnd(body[p..LineEnd(body, p)])| <= end <= |body|
    ensures TrimStart(body[p..end]) != [] && TrimStart(body[p..end])[0] == Trim(body[p..LineEnd(body, p)])[0]
  {
    hide IsSpace, LineEnd, TrimStart, TrimEnd, Trim;
    var line := body[p..LineEnd(body, p)];
    TrimHead(line);
    ContentEnd(body, p);
    HeadInContent(line);
    var lead := |line| - |TrimStart(line)|;
    var range := body[p..end];
    assert forall k :: 0 <= k <= lead ==> range[k] == line[k];
    TrimStartIs(range, lead);
  }

  /** The unit an open block is closed as. */
  lemma {:induction false} ClosedBlock(body: string, pos: nat, open: Open)
    requires OpenSound(body, pos, open) && ValidOpen(body, open) && OpenBlock(body, pos, open)
    ensures forall u :: u in Flush(body, open) ==> WholeBlock(body, u)
  {
    hide Rank, Cut, Trim, TrimEnd, TrimStart, LineEnd, IsSpace, UnitOf, Fresh;
    if open.Open? {
      UnitOfSound(body, open.start, open.end);
      UnitOfHeading(body, open.start, open.end);
      FirstCharacter(body, open.start, open.end);
    }
  }

  lemma {:induction false} NoLineInside(body: string, pos: nat, k: nat)
    requires pos < |body| && pos < k < LineEnd(body, pos)
    ensures !LineStart(body, k)
  {
  }

  lemma {:induction false} BlankByTrim(body: string, pos: nat)
    requires pos < |body| && LineStart(body, pos)
    ensures BlankLine(body, pos) <==> Trim(body[pos..LineEnd(body, pos)]) == []
  {
    hide Trim, TrimEnd, IsSpace, LineEnd;
    TrimBlank(body[pos..LineEnd(body, pos)]);
  }

  /** A line that is neither blank nor a heading does not break what runs unbroken up to it. */
  lemma {:induction false} UnbrokenOver(body: string, start: nat, pos: nat)
    requires start <= pos < |body| && Unbroken(body, start, pos)
    requires start < pos ==> !BlankLine(body, pos) && !HeadingLine(body, pos)
    ensures Unbroken(body, start, LineEnd(body, pos))
  {
    hide BlankLine, HeadingLine, LineEnd;
    forall k | pos < k < LineEnd(body, pos)
      ensures !LineStart(body, k)
    {
      NoLineInside(body, pos, k);
    }
  }

  /** A line that opens a block. */
  lemma {:induction false} LineOpensBlock(body: string, pos: nat)
    requires pos < |body| && LineStart(body, pos) && Fresh(body, pos) && Trim(body[pos..LineEnd(body, pos)]) != []
    ensures OpenBlock(body, LineEnd(body, pos), Open(pos, pos + |TrimEnd(body[pos..LineEnd(body, pos)])|))
  {
    hide Trim, TrimEnd, IsSpace, LineEnd, Fresh, BlankLine, HeadingLine;
    ContentEnd(body, pos);
    UnbrokenOver(body, pos, pos);
  }

  /** A line that extends a block. */
  lemma {:induction false} LineExtendsBlock(body: string, pos: nat, open: Open)
    requires pos < |body| && open.Open? && OpenBlock(body, pos, open)
    requires !BlankLine(body, pos) && !HeadingLine(body, pos)
    ensures OpenBlock(body, LineEnd(body, pos), Open(open.start, pos + |TrimEnd(body[pos..LineEnd(body, pos)])|))
  {
    hide Trim, TrimEnd, IsSpace, LineEnd, Fresh, BlankLine, HeadingLine;
    ContentEnd(body, pos);
    ContentEnd(body, open.start);
    UnbrokenOver(body, open.start, pos);
  }

  /** One line keeps the open block one. */
  lemma {:induction false} LineKeepsBlock(body: string, pos: nat, open: Open)
    requires pos < |body| && OpenSound(body, pos, open) && ValidOpen(body, open) && OpenBlock(body, pos, open)
    ensures OpenBlock(body, LineEnd(body, pos), Advance(body, pos, open).open)
  {
    hide Rank, Cut, Trim, TrimEnd, IsSpace, LineEnd, Flush, Blank, OpenBlock, OpenSound, BlankLine;
    var line := body[pos..LineEnd(body, pos)];
    OpenBlockAt(body, pos, open);
    BlankByTrim(body, pos);
    if Trim(line) == [] {
      BlankEndsBlock(body, pos);
    } else if StartsWith(Trim(line), '#') {
      LineOpensBlock(body, pos);
    } else if open.Open? {
      LineExtendsBlock(body, pos, open);
    } else {
      LineOpensBlock(body, pos);
    }
  }

  lemma OpenBlockAt(body: string, pos: nat, open: Open)
    requires pos < |body| && OpenBlock(body, pos, open)
    ensures LineStart(body, pos) && (open.NoneOpen? ==> Fresh(body, pos))
  {
    hide BlankLine, HeadingLine, Trim, TrimEnd;
  }

  lemma BlankEndsBlock(body: string, pos: nat)
    requires pos < |body| && BlankLine(body, pos)
    ensures OpenBlock(body, LineEnd(body, pos), NoneOpen)
  {
    hide Blank;
  }

  lemma {:induction false} BlocksFrom(body: string, pos: nat, open: Open)
    requires OpenSound(body, pos, open) && ValidOpen(body, open) && OpenBlock(body, pos, open)
    ensures forall u :: u in UnitsFrom(body, pos, open) ==> WholeBlock(body, u)
    decreases |body| - pos
  {
    hide Rank, Cut, Trim, TrimEnd, LineEnd, IsSpace, Flush, OpenBlock, WholeBlock;
    ClosedBlock(body, pos, open);
    if pos < |body| {
      LineTiles(body, pos, open);
      LineKeepsBlock(body, pos, open);
      BlocksFrom(body, LineEnd(body, pos), Advance(body, pos, open).open);
      ClosedIsFlush(body, pos, open);
    }
  }

  lemma ClosedIsFlush(body: string, pos: nat, open: Open)
    requires pos < |body| && ValidOpen(body, open) && (open.Open? ==> open.start <= pos)
    ensures forall u :: u in Advance(body, pos, open).closed ==> u in Flush(body, open)
  {
    hide Flush, Trim, TrimEnd, LineEnd;
  }

  /**
   Units are the paragraphs and sections of the body: none runs across a blank line or onto a heading line, and
   each starts at a heading line, after a blank line, or at the front; it is a heading unit exactly at a heading.
   */
  lemma {:induction false} UnitsAreBlocks(body: string, u: Unit)
    requires ValidOpen(body, NoneOpen) && u in UnitsFrom(body, 0, NoneOpen)
    ensures WholeBlock(body, u)
  {
    hide Rank, UnitsFrom, WholeBlock;
    Start(body);
    BlocksFrom(body, 0, NoneOpen);
  }
}
