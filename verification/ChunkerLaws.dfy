/**
 The spans measured against the options as given: where each span stops and how far the next one backs up,
 and the exact overlap inside an oversized unit.
 */
module ChunkerLaws {
  import opened Text
  import opened ChunkerLoops
  import opened ChunkerUnits
  import opened ChunkerChain
  import opened Chunker

  /** The word limit, target and overlap in force, from the options. */
  predicate InForce(opts: Options, max: nat, target: nat, overlap: nat) {
    && max == (if opts.maxTokens == 0 then 1 else opts.maxTokens)
    && target == (if opts.targetTokens == 0 then 1 else if opts.targetTokens < max then opts.targetTokens else max)
    && overlap == (if opts.overlapTokens < target then opts.overlapTokens else target - 1)
  }

  /** The units spans are packed from: line units within the limit, and the windows of the others. */
  ghost function PackedUnits(body: string, max: nat, target: nat, overlap: nat): (us: seq<Unit>)
    requires overlap < target <= max
    ensures Packed(body, us, Sizes(max, target, overlap))
  {
    var z := Sizes(max, target, overlap);
    UnitsPacked(body, z);
    FitAll(body, UnitsFrom(body, 0, NoneOpen), z)
  }

  // ---------- The units of each span ----------

  ghost predicate Over(s: ChunkSpan, us: seq<Unit>, i: nat, j: nat) {
    i < j <= |us| && s.charStart == us[i].start && s.charEnd == us[j - 1].end
  }

  /** The k-th span packed from unit i on, and where the one after it starts. */
  lemma {:induction false} PackAt(body: string, us: seq<Unit>, i: nat, z: Sizes, k: nat) returns (m: nat)
    requires i < |us| && Packable(body, us) && k < |Pack(body, us, i, z)|
    ensures m < |us| && (k == 0 ==> m == i)
    ensures var spans, j := Pack(body, us, i, z), Fill(us, m, 0, z);
      && spans[k] == SpanOf(body, us, m, j)
      && (j == |us| <==> k == |spans| - 1)
      && (j < |us| ==> spans[k + 1].charStart == us[Next(us, m, j, z)].start)
    decreases k
  {
    hide Fill, Next, Packable;
    if k == 0 {
      m := i;
    } else {
      m := PackAt(body, us, Next(us, i, Fill(us, i, 0, z), z), z, k - 1);
    }
  }

  /**
   Where a span stops: it takes units up to the target, no heading after its first unit and no unit past the
   limit; unless it is the last it stops short of the target only before a heading or a unit that would not fit.
   */
  ghost predicate StopsRight(us: seq<Unit>, i: nat, j: nat, max: nat, target: nat)
    requires i < j <= |us|
  {
    && (forall x :: i < x < j ==> !us[x].heading && Sum(us, i, x) < target)
    && Sum(us, i, j) <= max
    && (j < |us| && Sum(us, i, j) < target ==> us[j].heading || Sum(us, i, j) + us[j].words > max)
  }

  /** Where the next span starts: before every last unit of this one that fits the overlap, its first unit excepted. */
  ghost predicate BacksUpRight(us: seq<Unit>, i: nat, j: nat, n: nat, overlap: nat)
    requires i < j <= |us|
  {
    i < n <= j && Sum(us, n, j) <= overlap && (n == i + 1 || Sum(us, n - 1, j) > overlap)
  }

  /** Filling from unit i stops where it should, and the next start is where it should be. */
  lemma {:induction false} FillsRight(us: seq<Unit>, i: nat, z: Sizes)
    requires z.Valid() && Words(us, z) && i < |us|
    ensures var j := Fill(us, i, 0, z);
      && StopsRight(us, i, j, z.max, z.target)
      && (j < |us| ==> Next(us, i, j, z) < |us| && BacksUpRight(us, i, j, Next(us, i, j, z), z.overlap))
  {
    hide Fill, Next, Filling, Words;
    NextSpan(us, i, z);
    SpanIsGreedy(us, i, z);
    FillingIs(us, i, Fill(us, i, 0, z), z);
  }

  /** For every body and all options, each span stops where it should and the next one backs up as far as it may. */
  lemma {:induction false} SpansByOptions(body: string, opts: Options, max: nat, target: nat, overlap: nat, k: nat)
    returns (i: nat, j: nat, n: nat)
    requires InForce(opts, max, target, overlap) && k < |Chunks(body, opts)|
    ensures var spans, us := Chunks(body, opts), PackedUnits(body, max, target, overlap);
      && Over(spans[k], us, i, j) && StopsRight(us, i, j, max, target)
      && (k == 0 ==> i == 0) && (j == |us| <==> k == |spans| - 1)
      && (j < |us| ==> n < |us| && spans[k + 1].charStart == us[n].start && BacksUpRight(us, i, j, n, overlap))
  {
    hide UnitsFrom, FitAll, Rank, Chain, Fill, Next, Packable, StopsRight, BacksUpRight, Words, Cut, IsSpace;
    var z := Sizes(max, target, overlap);
    assert Clamped(opts) == z;
    UnitsPacked(body, z);
    var us := FitAll(body, UnitsFrom(body, 0, NoneOpen), z);
    i := PackAt(body, us, 0, z, k);
    j := Fill(us, i, 0, z);
    ChainWords(body, us, z);
    FillsRight(us, i, z);
    n := if j < |us| then Next(us, i, j, z) else 0;
  }

  lemma FillingIs(us: seq<Unit>, i: nat, j: nat, z: Sizes)
    requires Filling(us, i, j, z)
    ensures forall x :: i < x < j ==> !us[x].heading && Sum(us, i, x) < z.target
    ensures Sum(us, i, j) <= z.max
  {
  }

  // ---------- Inside an oversized unit ----------

  /** Each window but the last has the target's words, and shares exactly the overlap with the next. */
  lemma {:induction false} WindowsShare(body: string, u: Unit, z: Sizes, w: nat, k: nat)
    requires Sound(body, u) && z.Valid() && w < |WordsIn(body, u.start, u.end)|
    requires k + 1 < |Windows(WordsIn(body, u.start, u.end), z, w)|
    ensures var vs := Windows(WordsIn(body, u.start, u.end), z, w);
      && vs[k].words == z.target && vs[k].end <= |body| && vs[k + 1].start <= |body|
      && Rank(body, vs[k].end) == Rank(body, vs[k + 1].start) + z.overlap
    decreases k
  {
    hide Rank, Cut, WordsIn, IsSpace, Window;
    var ws := WordsIn(body, u.start, u.end);
    var next := w + (z.target - z.overlap);
    WindowSound(body, u, z, w);
    WindowSound(body, u, z, next);
    if k > 0 {
      WindowsShare(body, u, z, next, k - 1);
    }
  }

  lemma InBodyParts(body: string, a: seq<Unit>, b: seq<Unit>)
    requires InBody(body, a + b)
    ensures InBody(body, a) && InBody(body, b)
  {
    assert forall k :: 0 <= k < |a| ==> (a + b)[k] == a[k];
    assert forall k :: 0 <= k < |b| ==> (a + b)[|a| + k] == b[k];
  }

  lemma {:induction false} FitAllConcat(body: string, a: seq<Unit>, b: seq<Unit>, z: Sizes)
    requires z.Valid() && InBody(body, a + b)
    ensures InBody(body, a) && InBody(body, b)
    ensures FitAll(body, a + b, z) == FitAll(body, a, z) + FitAll(body, b, z)
  {
    hide Fit, InBody;
    InBodyParts(body, a, b);
    if a == [] {
      assert a + b == b;
    } else {
      assert (a + b)[1..] == a[1..] + b;
      assert a + b == [a[0]] + (a[1..] + b);
      InBodyParts(body, [a[0]], a[1..] + b);
      FitAllConcat(body, a[1..], b, z);
      FitAllCons(body, a + b, z);
      FitAllCons(body, a, z);
      Assoc(Fit(body, a[0], z), FitAll(body, a[1..], z), FitAll(body, b, z));
    }
  }

  lemma FitAllCons(body: string, us: seq<Unit>, z: Sizes)
    requires z.Valid() && InBody(body, us) && us != []
    ensures InBody(body, us[1..]) && us[0].start <= us[0].end <= |body|
    ensures FitAll(body, us, z) == Fit(body, us[0], z) + FitAll(body, us[1..], z)
  {
    hide Fit;
  }

  lemma {:induction false} TiledSplit(body: string, us: seq<Unit>, p: nat, r0: nat, r1: nat)
    requires Tiled(body, us, r0, r1) && p <= |us|
    ensures exists m :: Tiled(body, us[..p], r0, m) && Tiled(body, us[p..], m, r1)
  {
    hide Rank, Cut, IsSpace;
    if p == 0 {
      assert us[..0] == [] && us[0..] == us;
      assert Tiled(body, us[..0], r0, r0);
    } else {
      var m := Rank(body, us[0].end);
      TiledSplit(body, us[1..], p - 1, m, r1);
      var x :| Tiled(body, us[1..][..p - 1], m, x) && Tiled(body, us[1..][p - 1..], x, r1);
      assert us[..p][1..] == us[1..][..p - 1] && us[p..] == us[1..][p - 1..];
      assert Tiled(body, us[..p], r0, x);
    }
  }

  /** Every unit of a chain ends within its range of ranks. */
  lemma {:induction false} ChainEndsBy(body: string, us: seq<Unit>, r0: nat, r1: nat, z: Sizes, i: nat)
    requires z.Valid() && Chain(body, us, r0, r1, z) && i < |us|
    ensures Small(body, us[i], z) && Rank(body, us[i].start) < Rank(body, us[i].end) <= r1
  {
    hide Rank, Cut, IsSpace;
    ChainAdvances(body, us, r0, r1, z, i, |us| - 1);
    assert Small(body, us[i], z);
  }

  /** The packed units, around the windows of one oversized unit: those before it end before it starts, those after start after it. */
  lemma {:induction false} AroundUnit(body: string, lines: seq<Unit>, p: nat, z: Sizes) returns (a: nat, b: nat)
    requires z.Valid() && p < |lines| && Tiled(body, lines, 0, Rank(body, |body|))
    ensures InBody(body, lines)
    ensures var us, u := FitAll(body, lines, z), lines[p];
      && Sound(body, u) && a <= b <= |us| && us[a..b] == Fit(body, u, z)
      && (forall i :: 0 <= i < |us| ==> us[i].start < us[i].end <= |body|)
      && (forall i :: 0 <= i < a ==> us[i].start < u.start)
      && (forall i :: b <= i < |us| ==> us[i].start >= u.end)
  {
    hide Rank, Cut, IsSpace, Fit, FitAll, Chain, Tiled;
    var last := Rank(body, |body|);
    var before, u, after := lines[..p], lines[p], lines[p + 1..];
    TiledInBody(body, lines, 0, last);
    TiledSplit(body, lines, p, 0, last);
    var m :| Tiled(body, before, 0, m) && Tiled(body, lines[p..], m, last);
    assert lines[p..][0] == u && lines[p..][1..] == after;
    TiledHead(body, lines[p..], m, last);
    FitAllChain(body, before, z, 0, m);
    FitAllChain(body, after, z, Rank(body, u.end), last);
    assert lines == before + lines[p..];
    FitAllConcat(body, before, lines[p..], z);
    FitAllCons(body, lines[p..], z);
    FitChain(body, u, z);
    var x, y, w := FitAll(body, before, z), Fit(body, u, z), FitAll(body, after, z);
    a, b := |x|, |x| + |y|;
    var us := FitAll(body, lines, z);
    assert us == x + (y + w);
    assert us[a..b] == y;
    forall i | 0 <= i < |us|
      ensures us[i].start < us[i].end <= |body|
      ensures i < a ==> us[i].start < u.start
      ensures b <= i ==> us[i].start >= u.end
    {
      if i < a {
        assert us[i] == x[i];
        ChainEndsBy(body, x, 0, m, z, i);
        RankBefore(body, u.start, us[i].start);
      } else if i < b {
        assert us[i] == y[i - a];
        ChainEndsBy(body, y, m, Rank(body, u.end), z, i - a);
      } else {
        assert us[i] == w[i - b];
        ChainEndsBy(body, w, Rank(body, u.end), last, z, i - b);
        ChainStartsFrom(body, w, Rank(body, u.end), last, z, i - b);
        EndBefore(body, u, us[i]);
      }
    }
  }

  lemma TiledHead(body: string, us: seq<Unit>, r0: nat, r1: nat)
    requires Tiled(body, us, r0, r1) && us != []
    ensures Sound(body, us[0]) && Rank(body, us[0].start) == r0 && Tiled(body, us[1..], Rank(body, us[0].end), r1)
  {
    hide Rank, Sound;
  }

  lemma {:induction false} RankBefore(body: string, p: nat, q: nat)
    requires Cut(body, p) && Cut(body, q) && Rank(body, q) < Rank(body, p)
    ensures q < p
  {
    hide Rank;
    if p <= q { RankIncreases(body, p, q); }
  }

  lemma {:induction false} ChainStartsFrom(body: string, us: seq<Unit>, r0: nat, r1: nat, z: Sizes, i: nat)
    requires z.Valid() && Chain(body, us, r0, r1, z) && i < |us|
    ensures us[i].start <= |body| && Rank(body, us[i].start) >= r0
  {
    hide Rank, Cut, IsSpace;
    ChainAdvances(body, us, r0, r1, z, 0, i);
    assert Small(body, us[i], z);
  }

  /** A unit that starts no word before the end of another starts no earlier than its last character. */
  lemma {:induction false} EndBefore(body: string, u: Unit, v: Unit)
    requires Sound(body, u) && Sound(body, v) && Rank(body, v.start) >= Rank(body, u.end)
    ensures v.start >= u.end
  {
    hide Rank;
    if v.start < u.end {
      RankOrder(body, v.start, u.end);
    }
  }

  /**
   Two spans in a row, the first starting inside an oversized unit and the second before its end, share exactly
   the words of the overlap in force.
   */
  lemma {:induction false} OversizedShare(body: string, opts: Options, max: nat, target: nat, overlap: nat, u: Unit, k: nat)
    requires InForce(opts, max, target, overlap)
    requires ValidOpen(body, NoneOpen) && u in UnitsFrom(body, 0, NoneOpen) && u.words > max
    requires 0 < k < |Chunks(body, opts)|
    requires u.start <= Chunks(body, opts)[k - 1].charStart && Chunks(body, opts)[k].charStart < u.end
    ensures var s, t := Chunks(body, opts)[k - 1], Chunks(body, opts)[k];
      s.charEnd <= |body| && t.charStart <= |body| && Rank(body, s.charEnd) == Rank(body, t.charStart) + overlap
  {
    hide UnitsFrom, FitAll, Rank, Cut, IsSpace, WordsIn, Windows, Chain, Packable, Tiled, Chunks, OpenSound, StopsRight;
    var z := Sizes(max, target, overlap);
    var lines := UnitsFrom(body, 0, NoneOpen);
    var p :| 0 <= p < |lines| && lines[p] == u;
    LinesTile(body);
    var a, b := AroundUnit(body, lines, p, z);
    var us := PackedUnits(body, max, target, overlap);
    assert us == FitAll(body, lines, z);
    var i, j, n := SpansByOptions(body, opts, max, target, overlap, k - 1);
    assert a <= i < n < b;
    WindowOf(body, u, z, us, a, b, i);
    OneUnit(us, i, j, n, max, target, overlap);
  }

  /** The unit at i and the one after it, being windows of an oversized unit. */
  lemma {:induction false} WindowOf(body: string, u: Unit, z: Sizes, us: seq<Unit>, a: nat, b: nat, i: nat)
    requires Sound(body, u) && z.Valid() && u.words > z.max
    requires a <= i && i + 1 < b <= |us| && us[a..b] == Fit(body, u, z)
    ensures us[i].words == z.target && us[i].end <= |body| && us[i + 1].start <= |body|
    ensures Rank(body, us[i].end) == Rank(body, us[i + 1].start) + z.overlap
  {
    hide Rank, Cut, IsSpace, WordsIn, Windows;
    assert us[i] == us[a..b][i - a] && us[i + 1] == us[a..b][i - a + 1];
    WindowsShare(body, u, z, 0, i - a);
  }

  /** A span that starts with a unit of the target's words is that unit, and the next span starts after it. */
  lemma {:induction false} OneUnit(us: seq<Unit>, i: nat, j: nat, n: nat, max: nat, target: nat, overlap: nat)
    requires i < j < |us| && overlap < target <= max && us[i].words == target
    requires StopsRight(us, i, j, max, target) && BacksUpRight(us, i, j, n, overlap)
    ensures j == i + 1 && n == i + 1
  {
    assert Sum(us, i, i) == 0 && Sum(us, i, i + 1) == us[i].words;
  }

  lemma {:induction false} LinesTile(body: string)
    ensures ValidOpen(body, NoneOpen) && Tiled(body, UnitsFrom(body, 0, NoneOpen), 0, Rank(body, |body|))
  {
    hide UnitsFrom, Rank, Tiled;
    UnitsTile(body, 0, NoneOpen);
    Start(body);
  }
}
