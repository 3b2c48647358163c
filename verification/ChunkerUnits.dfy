/**
 The units that spans are packed from, measured in words: the line units tile the words of the body,
 and splitting the oversized ones leaves a chain in which only neighbouring windows overlap.
 */
module ChunkerUnits {
  import opened Text
  import opened ChunkerLoops

  /** A unit cuts no word, ends with one, and counts its words correctly. */
  ghost predicate Sound(body: string, u: Unit) {
    && u.start < u.end <= |body|
    && Cut(body, u.start) && Cut(body, u.end)
    && !IsSpace(body[u.end - 1])
    && u.words >= 1
    && Rank(body, u.end) == Rank(body, u.start) + u.words
  }

  /** The units cover, in order and without overlap, the words with ranks from r0 to r1. */
  ghost predicate Tiled(body: string, us: seq<Unit>, r0: nat, r1: nat) {
    if us == [] then r0 == r1
    else
      && Sound(body, us[0])
      && Rank(body, us[0].start) == r0
      && Tiled(body, us[1..], Rank(body, us[0].end), r1)
  }

  lemma {:induction false} TiledConcat(body: string, a: seq<Unit>, b: seq<Unit>, r0: nat, m: nat, r1: nat)
    requires Tiled(body, a, r0, m) && Tiled(body, b, m, r1)
    ensures Tiled(body, a + b, r0, r1)
  {
    hide Rank;
    if a == [] {
      assert a + b == b;
    } else {
      assert (a + b)[1..] == a[1..] + b;
      TiledConcat(body, a[1..], b, Rank(body, a[0].end), m, r1);
    }
  }

  lemma {:induction false} BlankRank(body: string, p: nat, q: nat)
    requires Cut(body, p) && p <= q <= |body|
    requires forall k :: p <= k < q ==> IsSpace(body[k])
    ensures Rank(body, q) == Rank(body, p)
  {
    WordsConcat(body, 0, p, q);
    WordsOfBlank(body, p, q);
  }

  /** A range that ends in a non-space holds at least one word. */
  lemma {:induction false} HasWord(s: string, lo: nat, hi: nat)
    requires lo < hi <= |s| && !IsSpace(s[hi - 1])
    ensures |WordsIn(s, lo, hi)| >= 1
    decreases hi - lo
  {
    if IsSpace(s[lo]) { HasWord(s, lo + 1, hi); }
  }

  lemma {:induction false} UnitOfSound(body: string, start: nat, end: nat)
    requires start < end <= |body| && Cut(body, start) && Cut(body, end) && !IsSpace(body[end - 1])
    ensures var us := UnitOf(body, start, end);
      |us| == 1 && us[0].start == start && us[0].end == end && Sound(body, us[0])
  {
    hide Rank, WordsIn, TrimStart, IsSpace, Shifted;
    WordsOfSlice(body, start, end, 0);
    HasWord(body, start, end);
    RankIncreases(body, start, end);
  }

  // ---------- Line units ----------

  predicate LineStart(body: string, pos: nat) {
    pos <= |body| && (pos == 0 || pos == |body| || body[pos - 1] == '\n')
  }

  /** What holds of the open unit before the line at `pos`: it ends with a word and only blanks follow. */
  ghost predicate OpenSound(body: string, pos: nat, open: Open) {
    && LineStart(body, pos)
    && (open.Open? ==>
          && open.start < open.end <= pos
          && Cut(body, open.start) && Cut(body, open.end)
          && !IsSpace(body[open.end - 1])
          && forall k :: open.end <= k < pos ==> IsSpace(body[k]))
  }

  function From(pos: nat, open: Open): nat { if open.Open? then open.start else pos }

  /** Where the content of a non-blank line ends. */
  lemma {:induction false} ContentEnd(body: string, pos: nat)
    requires pos < |body|
    ensures var next := LineEnd(body, pos);
      var line := body[pos..next];
      var end := pos + |TrimEnd(line)|;
      && (Trim(line) == [] <==> forall k :: pos <= k < next ==> IsSpace(body[k]))
      && pos <= end <= next
      && (forall k :: end <= k < next ==> IsSpace(body[k]))
      && (Trim(line) != [] ==> pos < end && !IsSpace(body[end - 1]))
  {
    hide LineEnd, Trim, TrimEnd, IsSpace;
    var next := LineEnd(body, pos);
    var line := body[pos..next];
    var tail := TrimEnd(line);
    TrimBlank(line);
    assert forall k :: pos <= k < next ==> body[k] == line[k - pos];
    assert forall k :: |tail| <= k < |line| ==> line[k] == line[|tail|..][k - |tail|];
  }

  lemma TrimBlank(s: string)
    ensures Trim(s) == [] <==> Blank(s)
    ensures Trim(s) != [] ==> TrimEnd(s) != []
  {
    var t := TrimStart(s);
    assert t != [] ==> !Blank(t);
  }

  lemma {:induction false} CloseOpen(body: string, pos: nat, open: Open)
    requires OpenSound(body, pos, open)
    ensures ValidOpen(body, open)
    ensures Tiled(body, Flush(body, open), Rank(body, From(pos, open)), Rank(body, pos))
  {
    hide Rank, Cut;
    if open.Open? {
      UnitOfSound(body, open.start, open.end);
      BlankRank(body, open.end, pos);
      assert UnitOf(body, open.start, open.end)[1..] == [];
    }
  }

  /** One line: the units it closes tile up to the new starting point. */
  lemma {:induction false} LineTiles(body: string, pos: nat, open: Open)
    requires pos < |body| && OpenSound(body, pos, open)
    ensures ValidOpen(body, open)
    ensures var step := Advance(body, pos, open);
      var next := LineEnd(body, pos);
      && OpenSound(body, next, step.open)
      && Tiled(body, step.closed, Rank(body, From(pos, open)), Rank(body, From(next, step.open)))
  {
    hide Rank, Trim, TrimEnd, Tiled, Flush, StartsWith, LineEnd;
    var next := LineEnd(body, pos);
    ContentEnd(body, pos);
    CloseOpen(body, pos, open);
    var line := body[pos..next];
    if Trim(line) == [] {
      BlankRank(body, pos, next);
    } else if !StartsWith(Trim(line), '#') && open.Open? {
      assert IsSpace(body[pos - 1]);
    }
    TiledNil(body, Rank(body, From(pos, open)));
  }

  lemma TiledNil(body: string, r: nat)
    ensures Tiled(body, [], r, r)
  {
  }

  /** The units from any line on tile the words from there to the end. */
  lemma {:induction false} UnitsTile(body: string, pos: nat, open: Open)
    requires OpenSound(body, pos, open)
    ensures ValidOpen(body, open)
    ensures Tiled(body, UnitsFrom(body, pos, open), Rank(body, From(pos, open)), Rank(body, |body|))
    decreases |body| - pos
  {
    hide Rank, Advance, Flush, Tiled;
    CloseOpen(body, pos, open);
    if pos < |body| {
      var step := Advance(body, pos, open);
      var next := LineEnd(body, pos);
      LineTiles(body, pos, open);
      UnitsTile(body, next, step.open);
      TiledConcat(body, step.closed, UnitsFrom(body, next, step.open),
                  Rank(body, From(pos, open)), Rank(body, From(next, step.open)), Rank(body, |body|));
    }
  }
}
