/**
 `chunk_note`, and what its spans promise: they cover every word in order, cut none, respect the
 size limit, overlap by a bounded number of words, and start afresh at headings.
 */
module Chunker {
  import opened Text
  import opened ChunkerLoops
  import opened ChunkerUnits
  import opened ChunkerChain

  /** The units of a body as they are packed: line units with the oversized ones split. */
  ghost predicate Packed(body: string, us: seq<Unit>, z: Sizes) {
    z.Valid() && Packable(body, us) && Chain(body, us, 0, Rank(body, |body|), z)
  }

  lemma {:induction false} UnitsPacked(body: string, z: Sizes)
    requires z.Valid()
    ensures InBody(body, UnitsFrom(body, 0, NoneOpen))
    ensures Packed(body, FitAll(body, UnitsFrom(body, 0, NoneOpen), z), z)
  {
    hide *;
    Start(body);
    UnitsTile(body, 0, NoneOpen);
    assert Rank(body, From(0, NoneOpen)) == 0 by { Start(body); }
    var us := UnitsFrom(body, 0, NoneOpen);
    FitAllChain(body, us, z, 0, Rank(body, |body|));
    ChainPackable(body, FitAll(body, us, z), 0, Rank(body, |body|), z);
    PackedIs(body, FitAll(body, us, z), z);
  }

  lemma Start(body: string)
    ensures OpenSound(body, 0, NoneOpen) && ValidOpen(body, NoneOpen)
    ensures From(0, NoneOpen) == 0 && Rank(body, From(0, NoneOpen)) == 0
  {
  }

  lemma PackedIs(body: string, us: seq<Unit>, z: Sizes)
    requires z.Valid() && Packable(body, us) && Chain(body, us, 0, Rank(body, |body|), z)
    ensures Packed(body, us, z)
  {
  }

  /** What `chunk_note` computes. */
  function Chunks(body: string, opts: Options): seq<ChunkSpan> {
    var z := Clamped(opts);
    UnitsPacked(body, z);
    var us := FitAll(body, UnitsFrom(body, 0, NoneOpen), z);
    if us == [] then [] else Pack(body, us, 0, z)
  }

  method ChunkNote(body: string, opts: Options) returns (spans: seq<ChunkSpan>)
    ensures spans == Chunks(body, opts)
  {
    hide UnitsFrom, FitAll, Rank, Cut, IsSpace, Chain;
    var z := Clamped(opts);
    UnitsPacked(body, z);
    var units := SplitUnits(body);
    units := SplitOversized(body, units, z);
    if units == [] {
      return [];
    }
    spans := PackUnits(body, units, z);
  }

  /** The inner loop: add units to the span that starts at `i` until one of the limits stops it. */
  method FillSpan(units: seq<Unit>, i: nat, z: Sizes) returns (j: nat)
    requires i < |units|
    ensures j == Fill(units, i, 0, z)
  {
    j := i;
    var words: nat := 0;
    while j < |units|
      invariant i <= j <= |units|
      invariant Fill(units, j, words, z) == Fill(units, i, 0, z)
    {
      var w := units[j].words;
      if words > 0 && words + w > z.max {
        break;
      }
      if words > 0 && units[j].heading {
        break;
      }
      words := words + w;
      j := j + 1;
      if words >= z.target {
        break;
      }
    }
  }

  /** The overlap loop: step back from `j` over units that together fit the overlap. */
  method NextStart(units: seq<Unit>, i: nat, j: nat, z: Sizes) returns (n: nat)
    requires i < j <= |units|
    ensures n == Next(units, i, j, z)
  {
    var k := j;
    var ow: nat := 0;
    while k > i
      invariant i <= k <= j
      invariant BackUp(units, i, k, ow, z) == BackUp(units, i, j, 0, z)
    {
      var w := units[k - 1].words;
      if ow + w > z.overlap {
        break;
      }
      ow := ow + w;
      k := k - 1;
    }
    n := if k > i then k else i + 1;
  }

  /** The packing loop. */
  method PackUnits(body: string, units: seq<Unit>, z: Sizes) returns (spans: seq<ChunkSpan>)
    requires units != [] && Packable(body, units)
    ensures spans == Pack(body, units, 0, z)
  {
    hide Fill, Next;
    spans := [];
    var i := 0;
    while i < |units|
      invariant i < |units|
      invariant spans + Pack(body, units, i, z) == Pack(body, units, 0, z)
      decreases |units| - i
    {
      var j := FillSpan(units, i, z);
      var start := units[i].start;
      var end := units[j - 1].end;
      var span := ChunkSpan(start, end, body[start..end]);
      if j >= |units| {
        spans := spans + [span];
        break;
      }
      Assoc(spans, [span], Pack(body, units, Next(units, i, j, z), z));
      spans := spans + [span];
      i := NextStart(units, i, j, z);
    }
  }

  // ---------- Packing, in words ----------

  function Sum(us: seq<Unit>, i: nat, j: nat): nat
    requires i <= j <= |us|
    decreases j - i
  {
    if i == j then 0 else Sum(us, i, j - 1) + us[j - 1].words
  }

  lemma {:induction false} SumSplit(us: seq<Unit>, i: nat, m: nat, j: nat)
    requires i <= m <= j <= |us|
    ensures Sum(us, i, j) == Sum(us, i, m) + Sum(us, m, j)
    decreases j - m
  {
    if m < j { SumSplit(us, i, m, j - 1); }
  }

  /** A span under construction: no heading after its first unit, and short of the target. */
  ghost predicate Filling(us: seq<Unit>, i: nat, j: nat, z: Sizes) {
    && i <= j <= |us|
    && (forall x :: i < x < j ==> !us[x].heading)
    && (forall x :: i <= x < j ==> Sum(us, i, x) < z.target)
    && Sum(us, i, j) <= z.max
  }

  ghost predicate Words(us: seq<Unit>, z: Sizes) {
    forall k :: 0 <= k < |us| ==> 1 <= us[k].words <= z.max
  }

  /** Where the filling of a span stops, and why. */
  lemma {:induction false} FillStops(us: seq<Unit>, i: nat, j: nat, z: Sizes)
    requires z.Valid() && Words(us, z) && Filling(us, i, j, z) && Sum(us, i, j) < z.target
    ensures var r := Fill(us, j, Sum(us, i, j), z);
      && Filling(us, i, r, z)
      && (|| r == |us|
          || Sum(us, i, r) >= z.target
          || (r > i && us[r].heading)
          || Sum(us, i, r) + us[r].words > z.max)
    decreases |us| - j
  {
    if j < |us| {
      var w := us[j].words;
      assert Sum(us, i, j + 1) == Sum(us, i, j) + w;
      assert Sum(us, i, j) > 0 <==> j > i by { if j > i { assert Sum(us, i, j) >= us[j - 1].words; } }
      if Sum(us, i, j) > 0 && (Sum(us, i, j) + w > z.max || us[j].heading) {
      } else {
        assert Filling(us, i, j + 1, z);
        if Sum(us, i, j) + w < z.target {
          FillStops(us, i, j + 1, z);
        }
      }
    }
  }

  lemma {:induction false} BackUpSum(us: seq<Unit>, i: nat, k: nat, j: nat, z: Sizes)
    requires i <= k <= j <= |us| && Sum(us, k, j) <= z.overlap
    ensures var r := BackUp(us, i, k, Sum(us, k, j), z);
      Sum(us, r, j) <= z.overlap && (r > i ==> Sum(us, r - 1, j) > z.overlap)
    decreases k
  {
    if k > i {
      SumSplit(us, k - 1, k, j);
      assert Sum(us, k - 1, k) == us[k - 1].words by { assert Sum(us, k - 1, k - 1) == 0; }
      if Sum(us, k - 1, j) <= z.overlap {
        BackUpSum(us, i, k - 1, j, z);
      }
    }
  }

  /** The next span starts after this one, re-includes at most the overlap, and ends no earlier. */
  lemma {:induction false} NextSpan(us: seq<Unit>, i: nat, z: Sizes)
    requires z.Valid() && Words(us, z) && i < |us|
    ensures var j := Fill(us, i, 0, z);
      && Filling(us, i, j, z)
      && (j < |us| ==>
            var n := Next(us, i, j, z);
            && Sum(us, n, j) <= z.overlap
            && j <= Fill(us, n, 0, z))
  {
    assert Sum(us, i, i) == 0;
    FillStops(us, i, i, z);
    var j := Fill(us, i, 0, z);
    if j < |us| {
      var n := Next(us, i, j, z);
      assert Sum(us, j, j) == 0;
      BackUpSum(us, i, j, j, z);
      SumSplit(us, i, n, j);
      SumSplit(us, i, BackUp(us, i, j, 0, z), j);
      assert Sum(us, n, n) == 0;
      FillStops(us, n, n, z);
      var r := Fill(us, n, 0, z);
      if r < j {
        SumSplit(us, i, n, r);
        SumSplit(us, n, r + 1, j);
        assert false;
      }
    }
  }

  /**
   The greedy choices: a span stops only at the end, at the target, before a heading, or before a unit that
   would not fit; and the next one re-includes as many of its units as fit the overlap, short of all of them.
   */
  lemma {:induction false} SpanIsGreedy(us: seq<Unit>, i: nat, z: Sizes)
    requires z.Valid() && Words(us, z) && i < |us|
    ensures var j := Fill(us, i, 0, z);
      && (|| j == |us|
          || Sum(us, i, j) >= z.target
          || us[j].heading
          || Sum(us, i, j) + us[j].words > z.max)
      && (j < |us| ==>
            var n := Next(us, i, j, z);
            && Sum(us, n, j) <= z.overlap
            && (n == i + 1 || Sum(us, n - 1, j) > z.overlap))
  {
    assert Sum(us, i, i) == 0;
    FillStops(us, i, i, z);
    var j := Fill(us, i, 0, z);
    if j < |us| {
      assert Sum(us, j, j) == 0;
      BackUpSum(us, i, j, j, z);
      NextSpan(us, i, z);
    }
  }

  // ---------- From units to offsets ----------

  lemma {:induction false} ChainWords(body: string, us: seq<Unit>, z: Sizes)
    requires Packed(body, us, z)
    ensures Words(us, z)
  {
    hide Rank, Cut, IsSpace;
    assert forall k :: 0 <= k < |us| ==> Small(body, us[k], z);
  }

  /** Inside one span the units tile, so ranks add up. */
  lemma {:induction false} SpanTiles(body: string, us: seq<Unit>, i: nat, j: nat, z: Sizes)
    requires Packed(body, us, z) && Filling(us, i, j, z) && i < j
    ensures InBody(body, us)
    ensures Rank(body, us[j - 1].end) == Rank(body, us[i].start) + Sum(us, i, j)
    decreases j - i
  {
    hide Rank, Cut, IsSpace;
    assert Small(body, us[j - 1], z);
    assert Sum(us, i, i) == 0;
    if i < j - 1 {
      SpanTiles(body, us, i, j - 1, z);
      assert Link(body, us[j - 2], us[j - 1], z);
      assert Sum(us, i, j - 1) >= us[j - 2].words;
    }
  }

  /** The same from any later unit of the span. */
  lemma {:induction false} TailTiles(body: string, us: seq<Unit>, i: nat, n: nat, j: nat, z: Sizes)
    requires Packed(body, us, z) && Filling(us, i, j, z) && i < n < j
    ensures InBody(body, us)
    ensures Rank(body, us[j - 1].end) == Rank(body, us[n].start) + Sum(us, n, j)
  {
    hide Rank, Cut, IsSpace;
    SpanTiles(body, us, i, j, z);
    SumSplit(us, i, n, j);
    SumSplit(us, i, n, n + 1);
    SpanTiles(body, us, i, n, z);
    SpanTiles(body, us, i, n + 1, z);
    assert Small(body, us[n], z);
    assert Sum(us, n, n + 1) == us[n].words by { assert Sum(us, n, n) == 0; }
  }

  /** A span's text is the body between its offsets, cuts no word, and has 1 to max words. */
  ghost predicate GoodSpan(body: string, s: ChunkSpan, z: Sizes) {
    && s.charStart < s.charEnd <= |body|
    && s.text == body[s.charStart..s.charEnd]
    && Cut(body, s.charStart) && Cut(body, s.charEnd) && !IsSpace(body[s.charEnd - 1])
    && Rank(body, s.charStart) < Rank(body, s.charEnd) <= Rank(body, s.charStart) + z.max
  }

  /** `t` starts later than `s`, skips no word, re-includes at most the overlap, and ends no earlier. */
  ghost predicate Follows(body: string, s: ChunkSpan, t: ChunkSpan, z: Sizes)
    requires GoodSpan(body, s, z) && GoodSpan(body, t, z)
  {
    && s.charStart < t.charStart && s.charEnd <= t.charEnd
    && Rank(body, s.charStart) < Rank(body, t.charStart) <= Rank(body, s.charEnd) <= Rank(body, t.charEnd)
    && Rank(body, s.charEnd) <= Rank(body, t.charStart) + z.overlap
  }

  /** The spans run through the words with ranks from r0 to r1. */
  ghost predicate GoodSpans(body: string, spans: seq<ChunkSpan>, r0: nat, r1: nat, z: Sizes) {
    && (forall k :: 0 <= k < |spans| ==> GoodSpan(body, spans[k], z))
    && (forall k :: 0 < k < |spans| ==> Follows(body, spans[k - 1], spans[k], z))
    && (if spans == [] then r0 == r1
        else Rank(body, spans[0].charStart) == r0 && Rank(body, spans[|spans| - 1].charEnd) == r1)
  }

  /** Positions follow ranks, for offsets that end a word. */
  lemma {:induction false} RankOrder(body: string, p: nat, q: nat)
    requires Cut(body, p) && Cut(body, q)
    ensures Rank(body, p) < Rank(body, q) ==> p < q
    ensures q > 0 && !IsSpace(body[q - 1]) && p < q ==> Rank(body, p) < Rank(body, q)
  {
    hide Rank;
    if q <= p {
      RankIncreases(body, q, p);
    } else if q > 0 && !IsSpace(body[q - 1]) {
      RankIncreases(body, p, q);
      HasWord(body, p, q);
    }
  }

  lemma {:induction false} SpanGood(body: string, us: seq<Unit>, i: nat, j: nat, z: Sizes)
    requires Packed(body, us, z) && Filling(us, i, j, z) && i < j
    ensures GoodSpan(body, SpanOf(body, us, i, j), z)
    ensures Rank(body, us[j - 1].end) == Rank(body, us[i].start) + Sum(us, i, j)
  {
    hide Rank, Cut, IsSpace;
    SpanTiles(body, us, i, j, z);
    ChainAdvances(body, us, 0, Rank(body, |body|), z, i, j - 1);
    assert Small(body, us[i], z) && Small(body, us[j - 1], z);
    assert Sum(us, i, j) >= us[j - 1].words;
  }

  lemma {:induction false} SpanFollows(body: string, us: seq<Unit>, i: nat, z: Sizes)
    requires Packed(body, us, z) && i < |us|
    ensures var j := Fill(us, i, 0, z);
      && GoodSpan(body, SpanOf(body, us, i, j), z)
      && (j < |us| ==>
            var n := Next(us, i, j, z);
            var t := SpanOf(body, us, n, Fill(us, n, 0, z));
            && GoodSpan(body, t, z)
            && Follows(body, SpanOf(body, us, i, j), t, z))
  {
    hide Rank, Cut, IsSpace, Fill, Next, Filling, Chain, Packable, GoodSpan, Follows;
    ChainWords(body, us, z);
    NextSpan(us, i, z);
    var j := Fill(us, i, 0, z);
    SpanGood(body, us, i, j, z);
    if j < |us| {
      var n := Next(us, i, j, z);
      var r := Fill(us, n, 0, z);
      NextSpan(us, n, z);
      SpanGood(body, us, n, r, z);
      FollowsFrom(body, us, i, j, n, r, z);
    }
  }

  lemma {:induction false} FollowsFrom(body: string, us: seq<Unit>, i: nat, j: nat, n: nat, r: nat, z: Sizes)
    requires Packed(body, us, z) && Filling(us, i, j, z) && i < n <= j < |us| && n < r && j <= r <= |us|
    requires Sum(us, n, j) <= z.overlap
    requires GoodSpan(body, SpanOf(body, us, i, j), z) && GoodSpan(body, SpanOf(body, us, n, r), z)
    ensures Follows(body, SpanOf(body, us, i, j), SpanOf(body, us, n, r), z)
  {
    hide Rank, Cut, IsSpace, Chain, Packable, Filling;
    var last := Rank(body, |body|);
    ChainAdvances(body, us, 0, last, z, i, n);
    ChainAdvances(body, us, 0, last, z, j - 1, r - 1);
    RankOrder(body, us[i].start, us[n].start);
    RankOrder(body, us[r - 1].end, us[j - 1].end);
    if n < j {
      TailTiles(body, us, i, n, j, z);
    } else {
      LinkAt(body, us, j, z);
    }
  }

  lemma LinkAt(body: string, us: seq<Unit>, k: nat, z: Sizes)
    requires Packed(body, us, z) && 0 < k < |us|
    ensures us[k - 1].end <= |body| && us[k].start <= |body| && Link(body, us[k - 1], us[k], z)
    ensures Small(body, us[k - 1], z) && Small(body, us[k], z)
  {
    hide Rank, Cut, IsSpace;
    assert Small(body, us[k - 1], z) && Small(body, us[k], z);
  }

  lemma {:induction false} ConsGood(body: string, s: ChunkSpan, rest: seq<ChunkSpan>, m: nat, r1: nat, z: Sizes)
    requires GoodSpan(body, s, z) && rest != [] && GoodSpans(body, rest, m, r1, z)
    requires Follows(body, s, rest[0], z)
    ensures GoodSpans(body, [s] + rest, Rank(body, s.charStart), r1, z)
  {
    hide Rank, Cut, IsSpace, Follows;
    var all := [s] + rest;
    assert forall k :: 0 < k < |all| ==> all[k] == rest[k - 1];
    forall k | 0 < k < |all|
      ensures Follows(body, all[k - 1], all[k], z)
    {
      if k > 1 { assert all[k - 1] == rest[k - 2]; }
    }
  }

  lemma {:induction false} PackGood(body: string, us: seq<Unit>, i: nat, z: Sizes)
    requires Packed(body, us, z) && i < |us|
    ensures GoodSpans(body, Pack(body, us, i, z), Rank(body, us[i].start), Rank(body, |body|), z)
    decreases |us| - i
  {
    hide Rank, Cut, IsSpace, Fill, Next, Packable, Follows;
    var j := Fill(us, i, 0, z);
    SpanFollows(body, us, i, z);
    if j < |us| {
      var n := Next(us, i, j, z);
      PackGood(body, us, n, z);
      ConsGood(body, SpanOf(body, us, i, j), Pack(body, us, n, z), Rank(body, us[n].start), Rank(body, |body|), z);
    }
  }

  // ---------- What the spans promise ----------

  /**
   Coverage, size and overlap at once, for every body and all options: the spans run through all the
   words of the body, each with between 1 and max words; each next span starts strictly later, leaves
   no word between, shares at most the overlap, and ends no earlier.
   */
  lemma {:induction false} SpansCover(body: string, opts: Options)
    ensures GoodSpans(body, Chunks(body, opts), 0, |WordsIn(body, 0, |body|)|, Clamped(opts))
  {
    hide UnitsFrom, FitAll, Cut, IsSpace, WordsIn, Pack, Packable;
    var z := Clamped(opts);
    UnitsPacked(body, z);
    var us := FitAll(body, UnitsFrom(body, 0, NoneOpen), z);
    if us != [] {
      PackGood(body, us, 0, z);
    }
  }

  /** The w-th word of the body lies wholly inside the span. */
  ghost predicate Holds(body: string, s: ChunkSpan, w: nat)
    requires w < |WordsIn(body, 0, |body|)|
  {
    var word := WordsIn(body, 0, |body|)[w];
    s.charStart <= word.start && word.end <= s.charEnd
  }

  /** A span holds exactly the words whose index is between the ranks of its ends. */
  lemma {:induction false} HoldsByRank(body: string, s: ChunkSpan, w: nat, z: Sizes)
    requires GoodSpan(body, s, z) && w < |WordsIn(body, 0, |body|)|
    ensures Holds(body, s, w) <==> Rank(body, s.charStart) <= w < Rank(body, s.charEnd)
  {
    hide WordsIn, Cut, IsSpace;
    var n := |body|;
    var ws := WordsIn(body, 0, n);
    var lo, hi := Rank(body, s.charStart), Rank(body, s.charEnd);
    WordsBetweenCuts(body, s.charStart, s.charEnd);
    WordsConcat(body, 0, s.charStart, n);
    WordsConcat(body, s.charStart, s.charEnd, n);
    WordsWithin(body, 0, s.charStart);
    WordsWithin(body, s.charStart, s.charEnd);
    WordsWithin(body, s.charEnd, n);
    if w < lo {
      assert ws[w] == WordsIn(body, 0, s.charStart)[w];
    } else if w < hi {
      assert ws[w] == WordsIn(body, s.charStart, s.charEnd)[w - lo];
    } else {
      assert ws[w] == WordsIn(body, s.charEnd, n)[w - hi];
    }
  }

  lemma {:induction false} GoodAt(body: string, opts: Options, k: nat)
    requires k < |Chunks(body, opts)|
    ensures GoodSpan(body, Chunks(body, opts)[k], Clamped(opts))
    ensures k > 0 ==> GoodSpan(body, Chunks(body, opts)[k - 1], Clamped(opts))
    ensures k > 0 ==> Follows(body, Chunks(body, opts)[k - 1], Chunks(body, opts)[k], Clamped(opts))
  {
    hide Chunks, GoodSpan, Follows, Rank;
    SpansCover(body, opts);
  }

  /** Every word of the body lies wholly inside some span. */
  lemma {:induction false} EveryWordCovered(body: string, opts: Options, w: nat)
    requires w < |WordsIn(body, 0, |body|)|
    ensures exists k :: 0 <= k < |Chunks(body, opts)| && Holds(body, Chunks(body, opts)[k], w)
  {
    hide Chunks, Holds, WordsIn, Follows, Cut, IsSpace;
    SpansCover(body, opts);
    var spans := Chunks(body, opts);
    SomeSpan(body, opts, w, |spans|);
  }

  lemma {:induction false} SomeSpan(body: string, opts: Options, w: nat, n: nat)
    requires w < |WordsIn(body, 0, |body|)|
    requires 0 < n <= |Chunks(body, opts)|
    requires Chunks(body, opts)[n - 1].charEnd <= |body| && w < Rank(body, Chunks(body, opts)[n - 1].charEnd)
    ensures exists k :: 0 <= k < |Chunks(body, opts)| && Holds(body, Chunks(body, opts)[k], w)
    decreases n
  {
    hide Chunks, Holds, WordsIn;
    var spans := Chunks(body, opts);
    GoodAt(body, opts, n - 1);
    HoldsByRank(body, spans[n - 1], w, Clamped(opts));
    if w < Rank(body, spans[n - 1].charStart) {
      if n == 1 {
        SpansCover(body, opts);
      } else {
        SomeSpan(body, opts, w, n - 1);
      }
    }
  }

  /** The span's text is the body between its offsets and its words are consecutive whole words of the body. */
  ghost predicate WholeWords(body: string, s: ChunkSpan) {
    var all, own := WordsIn(body, 0, |body|), WordsIn(s.text, 0, |s.text|);
    && s.charStart < s.charEnd <= |body|
    && s.text == body[s.charStart..s.charEnd]
    && var r := Rank(body, s.charStart);
       r + |own| <= |all| && Shifted(own, s.charStart) == all[r..r + |own|]
  }

  lemma {:induction false} GoodSpanText(body: string, s: ChunkSpan, z: Sizes)
    requires GoodSpan(body, s, z)
    ensures WholeWords(body, s)
    ensures 1 <= |WordsIn(s.text, 0, |s.text|)| <= z.max
  {
    hide WordsIn, Cut, IsSpace, Shifted;
    WordsOfSlice(body, s.charStart, s.charEnd, 0);
    WordsBetweenCuts(body, s.charStart, s.charEnd);
  }

  /** No span cuts a word, and each has between 1 and max(max_tokens, 1) of them. */
  lemma {:induction false} SpanText(body: string, opts: Options, k: nat)
    requires k < |Chunks(body, opts)|
    ensures var s := Chunks(body, opts)[k];
      && WholeWords(body, s)
      && 1 <= |WordsIn(s.text, 0, |s.text|)| <= if opts.maxTokens < 1 then 1 else opts.maxTokens
  {
    hide *;
    GoodAt(body, opts, k);
    GoodSpanText(body, Chunks(body, opts)[k], Clamped(opts));
  }

  /** Two spans in a row both hold the words of one range, of at most the clamped overlap. */
  lemma {:induction false} OverlapBounded(body: string, opts: Options, k: nat, w: nat)
    requires 0 < k < |Chunks(body, opts)| && w < |WordsIn(body, 0, |body|)|
    ensures var s, t := Chunks(body, opts)[k - 1], Chunks(body, opts)[k];
      && s.charStart < t.charStart <= |body| && s.charEnd <= |body| && s.charEnd <= t.charEnd
      && (Holds(body, s, w) && Holds(body, t, w) <==> Rank(body, t.charStart) <= w < Rank(body, s.charEnd))
      && 0 <= Rank(body, s.charEnd) - Rank(body, t.charStart) <= Clamped(opts).overlap
  {
    hide Chunks, Holds, Rank, Clamped, Cut, IsSpace;
    GoodAt(body, opts, k);
    HoldsByRank(body, Chunks(body, opts)[k - 1], w, Clamped(opts));
    HoldsByRank(body, Chunks(body, opts)[k], w, Clamped(opts));
  }
}
