/** The units after oversized ones are split: a chain of small units whose only overlaps are between windows. */
module ChunkerChain {
  import opened Text
  import opened ChunkerLoops
  import opened ChunkerUnits

  /** `v` starts where `u` ends, or both are windows of one unit and share exactly the overlap. */
  ghost predicate Link(body: string, u: Unit, v: Unit, z: Sizes)
    requires u.end <= |body| && v.start <= |body|
  {
    || Rank(body, v.start) == Rank(body, u.end)
    || (&& u.words == z.target && v.words > z.overlap && !u.heading && !v.heading
        && Rank(body, v.start) + z.overlap == Rank(body, u.end))
  }

  ghost predicate Small(body: string, u: Unit, z: Sizes) {
    Sound(body, u) && u.words <= z.max
  }

  ghost predicate Chain(body: string, us: seq<Unit>, r0: nat, r1: nat, z: Sizes) {
    && (forall k :: 0 <= k < |us| ==> Small(body, us[k], z))
    && (forall k :: 0 < k < |us| ==> Link(body, us[k - 1], us[k], z))
    && (if us == [] then r0 == r1
        else Rank(body, us[0].start) == r0 && Rank(body, us[|us| - 1].end) == r1)
  }

  lemma {:induction false} ChainConcat(body: string, a: seq<Unit>, b: seq<Unit>, r0: nat, m: nat, r1: nat, z: Sizes)
    requires Chain(body, a, r0, m, z) && Chain(body, b, m, r1, z)
    ensures Chain(body, a + b, r0, r1, z)
  {
    hide Rank, Cut, IsSpace;
    var c := a + b;
    forall k | 0 < k < |c|
      ensures Link(body, c[k - 1], c[k], z)
    {
      if k < |a| {
        assert c[k - 1] == a[k - 1] && c[k] == a[k];
      } else if k > |a| {
        assert c[k - 1] == b[k - |a| - 1] && c[k] == b[k - |a|];
      }
    }
  }

  lemma {:induction false} ChainCons(body: string, u: Unit, us: seq<Unit>, m: nat, r1: nat, z: Sizes)
    requires Small(body, u, z) && us != [] && Chain(body, us, m, r1, z)
    requires us[0].start <= |body| && Link(body, u, us[0], z)
    ensures Chain(body, [u] + us, Rank(body, u.start), r1, z)
  {
    hide Rank, Cut, IsSpace;
    var c := [u] + us;
    forall k | 0 < k < |c|
      ensures Link(body, c[k - 1], c[k], z)
    {
      if k > 1 { assert c[k - 1] == us[k - 2] && c[k] == us[k - 1]; }
    }
  }

  lemma ChainOne(body: string, u: Unit, z: Sizes)
    requires Small(body, u, z)
    ensures Chain(body, [u], Rank(body, u.start), Rank(body, u.end), z)
  {
  }

  /** The k-th word of a range starts and ends at cuts, with consecutive ranks. */
  lemma {:induction false} WordRank(s: string, lo: nat, hi: nat, k: nat)
    requires lo <= hi <= |s| && Cut(s, lo) && Cut(s, hi) && k < |WordsIn(s, lo, hi)|
    ensures var w := WordsIn(s, lo, hi)[k];
      && lo <= w.start < w.end <= hi
      && Cut(s, w.start) && Cut(s, w.end) && !IsSpace(s[w.end - 1])
      && Rank(s, w.start) == Rank(s, lo) + k
      && Rank(s, w.end) == Rank(s, lo) + k + 1
    decreases hi - lo
  {
    hide Rank, IsSpace;
    if IsSpace(s[lo]) {
      BlankRank(s, lo, lo + 1);
      WordRank(s, lo + 1, hi, k);
    } else {
      var e := WordEnd(s, lo, hi);
      assert WordEnd(s, lo, e) == e;
      assert WordsIn(s, lo, e) == [Word(lo, e)] + WordsIn(s, e, e);
      RankIncreases(s, lo, e);
      if k > 0 { WordRank(s, e, hi, k - 1); }
    }
  }

  lemma {:induction false} WindowSound(body: string, u: Unit, z: Sizes, w: nat)
    requires Sound(body, u) && z.Valid()
    requires w < |WordsIn(body, u.start, u.end)|
    ensures var ws := WordsIn(body, u.start, u.end);
      var v := Window(ws, z, w);
      && Small(body, v, z) && !v.heading && v.words == Min(z.target, |ws| - w)
      && Rank(body, v.start) == Rank(body, u.start) + w
      && Rank(body, v.end) == Rank(body, u.start) + Min(w + z.target, |ws|)
  {
    hide Rank, Cut, WordsIn, IsSpace;
    var ws := WordsIn(body, u.start, u.end);
    var v := Window(ws, z, w);
    WordRank(body, u.start, u.end, w);
    WordRank(body, u.start, u.end, w + v.words - 1);
    if v.end <= v.start {
      RankIncreases(body, v.end, v.start);
    }
  }

  /** Every window but the last has `target` words, and the last has more than the overlap. */
  lemma {:induction false} WindowsChain(body: string, u: Unit, z: Sizes, w: nat)
    requires Sound(body, u) && z.Valid()
    requires w + z.overlap < |WordsIn(body, u.start, u.end)|
    ensures var ws := WordsIn(body, u.start, u.end);
      var vs := Windows(ws, z, w);
      && Chain(body, vs, Rank(body, u.start) + w, Rank(body, u.start) + |ws|, z)
      && vs != [] && vs[0] == Window(ws, z, w)
    decreases |WordsIn(body, u.start, u.end)| - w
  {
    hide Rank, Cut, WordsIn, IsSpace, Chain, Window;
    var ws := WordsIn(body, u.start, u.end);
    WindowSound(body, u, z, w);
    var head := Window(ws, z, w);
    if w + z.target < |ws| {
      var next := w + (z.target - z.overlap);
      WindowsChain(body, u, z, next);
      WindowSound(body, u, z, next);
      ChainCons(body, head, Windows(ws, z, next), Rank(body, u.start) + next, Rank(body, u.start) + |ws|, z);
    } else {
      ChainOne(body, head, z);
    }
  }

  lemma {:induction false} FitChain(body: string, u: Unit, z: Sizes)
    requires Sound(body, u) && z.Valid()
    ensures Chain(body, Fit(body, u, z), Rank(body, u.start), Rank(body, u.end), z)
    ensures Fit(body, u, z) != [] && Fit(body, u, z)[0].start <= |body|
  {
    hide Rank, Cut, WordsIn, IsSpace, Windows;
    if u.words > z.max {
      RankIncreases(body, u.start, u.end);
      WindowsChain(body, u, z, 0);
    }
  }

  /** Splitting the oversized units of a tiling leaves a chain over the same words. */
  lemma {:induction false} FitAllChain(body: string, us: seq<Unit>, z: Sizes, r0: nat, r1: nat)
    requires z.Valid() && Tiled(body, us, r0, r1)
    ensures InBody(body, us)
    ensures Chain(body, FitAll(body, us, z), r0, r1, z)
  {
    hide Rank, Cut, IsSpace, Fit, Chain;
    TiledInBody(body, us, r0, r1);
    if us == [] {
      ChainNil(body, r0, z);
    } else {
      var m := Rank(body, us[0].end);
      FitChain(body, us[0], z);
      FitAllChain(body, us[1..], z, m, r1);
      ChainConcat(body, Fit(body, us[0], z), FitAll(body, us[1..], z), r0, m, r1, z);
    }
  }

  lemma ChainNil(body: string, r: nat, z: Sizes)
    ensures Chain(body, [], r, r, z)
  {
  }

  lemma {:induction false} TiledInBody(body: string, us: seq<Unit>, r0: nat, r1: nat)
    requires Tiled(body, us, r0, r1)
    ensures InBody(body, us)
  {
    hide Rank, Cut, IsSpace;
    if us != [] {
      TiledInBody(body, us[1..], Rank(body, us[0].end), r1);
      assert forall k :: 0 < k < |us| ==> us[k] == us[1..][k - 1];
    }
  }

  /** Along a chain both starts and ends move strictly forward. */
  lemma {:induction false} ChainAdvances(body: string, us: seq<Unit>, r0: nat, r1: nat, z: Sizes, i: nat, j: nat)
    requires z.Valid() && Chain(body, us, r0, r1, z) && i <= j < |us|
    ensures i < j ==> Rank(body, us[i].start) < Rank(body, us[j].start)
    ensures i < j ==> Rank(body, us[i].end) < Rank(body, us[j].end)
    ensures us[i].start < us[j].end
    decreases j - i
  {
    hide Rank, Cut, IsSpace;
    if i < j {
      ChainAdvances(body, us, r0, r1, z, i, j - 1);
      assert Small(body, us[j - 1], z) && Small(body, us[j], z) && Link(body, us[j - 1], us[j], z);
      assert Small(body, us[i], z);
      if us[j].end <= us[i].start {
        RankIncreases(body, us[j].end, us[i].start);
      }
    } else {
      assert Small(body, us[i], z);
    }
  }

  lemma {:induction false} ChainPackable(body: string, us: seq<Unit>, r0: nat, r1: nat, z: Sizes)
    requires z.Valid() && Chain(body, us, r0, r1, z)
    ensures Packable(body, us)
  {
    hide Rank, Cut, IsSpace;
    forall i, j | 0 <= i <= j < |us|
      ensures us[i].start <= us[j].end <= |body|
    {
      ChainAdvances(body, us, r0, r1, z, i, j);
      assert Small(body, us[j], z);
    }
  }
}
