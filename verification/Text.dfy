/** Characters, trimming, searching and words: the parts of Rust's `str` that the model relies on. */
module Text {

  datatype Option<+T> = None | Some(value: T)

  datatype Result<+T, +E> = Ok(value: T) | Err(error: E)

  lemma Assoc<T>(a: seq<T>, b: seq<T>, c: seq<T>)
    ensures (a + b) + c == a + (b + c)
  {
  }

  /** `char::is_whitespace`: the code points with Unicode property White_Space. */
  predicate IsSpace(c: char) {
    var n := c as int;
    || 0x9 <= n <= 0xD
    || n == 0x20 || n == 0x85 || n == 0xA0 || n == 0x1680
    || 0x2000 <= n <= 0x200A
    || n == 0x2028 || n == 0x2029 || n == 0x202F || n == 0x205F || n == 0x3000
  }

  predicate Blank(s: string) {
    forall i :: 0 <= i < |s| ==> IsSpace(s[i])
  }

  /** `str::trim_start`. */
  function TrimStart(s: string): (r: string)
    ensures |r| <= |s| && r == s[|s| - |r|..]
    ensures forall i :: 0 <= i < |s| - |r| ==> IsSpace(s[i])
    ensures r != [] ==> !IsSpace(r[0])
    ensures r == [] <==> Blank(s)
  {
    if s != [] && IsSpace(s[0]) then TrimStart(s[1..]) else s
  }

  /** `str::trim_end`. */
  function TrimEnd(s: string): (r: string)
    ensures r <= s && Blank(s[|r|..])
    ensures r != [] ==> !IsSpace(r[|r| - 1])
    ensures r == [] <==> Blank(s)
  {
    if s == [] then s
    else if IsSpace(s[|s| - 1]) then
      var r := TrimEnd(s[..|s| - 1]);
      assert s[|r|..] == s[..|s| - 1][|r|..] + [s[|s| - 1]];
      r
    else s
  }

  /** `str::trim`. */
  function Trim(s: string): string {
    TrimEnd(TrimStart(s))
  }

  predicate StartsWith(s: string, c: char) {
    s != [] && s[0] == c
  }

  /** A maximal run of non-whitespace characters, by its offsets. */
  datatype Word = Word(start: nat, end: nat)

  function WordEnd(s: string, lo: nat, hi: nat): (e: nat)
    requires lo <= hi <= |s|
    ensures lo <= e <= hi
    ensures forall k :: lo <= k < e ==> !IsSpace(s[k])
    ensures e < hi ==> IsSpace(s[e])
    ensures lo < hi && !IsSpace(s[lo]) ==> lo < e
    decreases hi - lo
  {
    if lo == hi || IsSpace(s[lo]) then lo else WordEnd(s, lo + 1, hi)
  }

  /** The words of `s[lo..hi]`, in order, with their offsets in `s`. */
  function WordsIn(s: string, lo: nat, hi: nat): seq<Word>
    requires lo <= hi <= |s|
    decreases hi - lo
  {
    if lo == hi then []
    else if IsSpace(s[lo]) then WordsIn(s, lo + 1, hi)
    else var e := WordEnd(s, lo, hi); [Word(lo, e)] + WordsIn(s, e, hi)
  }

  /** No word of `s` runs across offset `p`. */
  predicate Cut(s: string, p: nat) {
    p <= |s| && (p == 0 || p == |s| || IsSpace(s[p - 1]) || IsSpace(s[p]))
  }

  /** The number of words that start before offset `p`. */
  function Rank(s: string, p: nat): nat
    requires p <= |s|
  {
    |WordsIn(s, 0, p)|
  }

  lemma {:induction false} WordsConcat(s: string, lo: nat, m: nat, hi: nat)
    requires lo <= m <= hi <= |s| && Cut(s, m)
    ensures WordsIn(s, lo, hi) == WordsIn(s, lo, m) + WordsIn(s, m, hi)
    decreases m - lo
  {
    hide IsSpace, WordEnd;
    if lo == m {
    } else if IsSpace(s[lo]) {
      WordsConcat(s, lo + 1, m, hi);
    } else {
      var e := WordEnd(s, lo, hi);
      assert WordEnd(s, lo, m) == e;
      WordsConcat(s, e, m, hi);
      Assoc([Word(lo, e)], WordsIn(s, e, m), WordsIn(s, m, hi));
    }
  }

  lemma {:induction false} WordsOfBlank(s: string, lo: nat, hi: nat)
    requires lo <= hi <= |s|
    requires forall k :: lo <= k < hi ==> IsSpace(s[k])
    ensures WordsIn(s, lo, hi) == []
    decreases hi - lo
  {
    if lo < hi { WordsOfBlank(s, lo + 1, hi); }
  }

  ghost predicate OrderedWords(ws: seq<Word>, lo: nat, hi: nat) {
    && (forall k :: 0 <= k < |ws| ==> lo <= ws[k].start < ws[k].end <= hi)
    && (forall j, k :: 0 <= j < k < |ws| ==> ws[j].end <= ws[k].start)
  }

  /** Words lie in their range, in order, and are never empty. */
  lemma {:induction false} WordsWithin(s: string, lo: nat, hi: nat)
    requires lo <= hi <= |s|
    ensures OrderedWords(WordsIn(s, lo, hi), lo, hi)
    decreases hi - lo
  {
    if lo < hi {
      if IsSpace(s[lo]) {
        WordsWithin(s, lo + 1, hi);
      } else {
        var e := WordEnd(s, lo, hi);
        WordsWithin(s, e, hi);
        assert WordsIn(s, lo, hi) == [Word(lo, e)] + WordsIn(s, e, hi);
      }
    }
  }

  /** A word is a run of non-spaces with a space, or the end of the range, on either side. */
  ghost predicate MaximalRun(s: string, lo: nat, hi: nat, w: Word)
    requires hi <= |s|
  {
    && lo <= w.start < w.end <= hi
    && (forall k :: w.start <= k < w.end ==> !IsSpace(s[k]))
    && (w.start == lo || IsSpace(s[w.start - 1]))
    && (w.end == hi || IsSpace(s[w.end]))
  }

  lemma {:induction false} WordsFromRuns(s: string, from: nat, lo: nat, hi: nat)
    requires from <= lo <= hi <= |s|
    requires lo == from || IsSpace(s[lo - 1]) || lo == hi || IsSpace(s[lo])
    ensures forall w :: w in WordsIn(s, lo, hi) ==> MaximalRun(s, from, hi, w)
    ensures forall p :: lo <= p < hi && !IsSpace(s[p]) ==> exists w :: w in WordsIn(s, lo, hi) && w.start <= p < w.end
    decreases hi - lo
  {
    hide IsSpace;
    if lo < hi {
      if IsSpace(s[lo]) {
        WordsFromRuns(s, from, lo + 1, hi);
      } else {
        var e := WordEnd(s, lo, hi);
        var rest := WordsIn(s, e, hi);
        WordsFromRuns(s, from, e, hi);
        assert WordsIn(s, lo, hi) == [Word(lo, e)] + rest;
        forall p | lo <= p < hi && !IsSpace(s[p])
          ensures exists w :: w in WordsIn(s, lo, hi) && w.start <= p < w.end
        {
          if p < e {
            assert Word(lo, e) in WordsIn(s, lo, hi);
          } else {
            var w :| w in rest && w.start <= p < w.end;
            assert w in WordsIn(s, lo, hi);
          }
        }
      }
    }
  }

  /** The words of a range are its maximal runs of non-spaces, each non-space lying in one of them. */
  lemma {:induction false} WordsAreRuns(s: string, lo: nat, hi: nat)
    requires lo <= hi <= |s|
    ensures forall w :: w in WordsIn(s, lo, hi) ==> MaximalRun(s, lo, hi, w)
    ensures forall p :: lo <= p < hi && !IsSpace(s[p]) ==> exists w :: w in WordsIn(s, lo, hi) && w.start <= p < w.end
  {
    WordsFromRuns(s, lo, lo, hi);
  }

  /** Between two cuts lie exactly the words whose index is between their ranks. */
  lemma {:induction false} WordsBetweenCuts(s: string, lo: nat, hi: nat)
    requires lo <= hi <= |s| && Cut(s, lo) && Cut(s, hi)
    ensures Rank(s, lo) <= Rank(s, hi) <= |WordsIn(s, 0, |s|)|
    ensures WordsIn(s, lo, hi) == WordsIn(s, 0, |s|)[Rank(s, lo)..Rank(s, hi)]
  {
    WordsConcat(s, 0, hi, |s|);
    WordsConcat(s, 0, lo, hi);
  }

  lemma {:induction false} RankIncreases(s: string, p: nat, q: nat)
    requires Cut(s, p) && Cut(s, q) && p <= q
    ensures Rank(s, q) == Rank(s, p) + |WordsIn(s, p, q)|
  {
    WordsConcat(s, 0, p, q);
  }

  function Shifted(ws: seq<Word>, d: nat): (r: seq<Word>)
    ensures |r| == |ws|
  {
    seq(|ws|, i requires 0 <= i < |ws| => Word(ws[i].start + d, ws[i].end + d))
  }

  lemma ShiftedCons(w: Word, ws: seq<Word>, d: nat)
    ensures Shifted([w] + ws, d) == [Word(w.start + d, w.end + d)] + Shifted(ws, d)
  {
  }

  lemma {:induction false} WordEndOfSlice(s: string, lo: nat, hi: nat, i: nat)
    requires lo <= hi <= |s| && i <= hi - lo
    ensures WordEnd(s, lo + i, hi) == lo + WordEnd(s[lo..hi], i, hi - lo)
    decreases hi - lo - i
  {
    if i < hi - lo && !IsSpace(s[lo + i]) {
      WordEndOfSlice(s, lo, hi, i + 1);
    }
  }

  /** The words of a slice taken on its own are those of its range, shifted. */
  lemma {:induction false} WordsOfSlice(s: string, lo: nat, hi: nat, i: nat)
    requires lo <= hi <= |s| && i <= hi - lo
    ensures WordsIn(s, lo + i, hi) == Shifted(WordsIn(s[lo..hi], i, hi - lo), lo)
    decreases hi - lo - i
  {
    hide Shifted, WordEnd, IsSpace;
    var t := s[lo..hi];
    if i == hi - lo {
      assert Shifted([], lo) == [] by { ShiftedNil(lo); }
    } else if IsSpace(t[i]) {
      WordsOfSlice(s, lo, hi, i + 1);
    } else {
      var e := WordEnd(t, i, hi - lo);
      WordEndOfSlice(s, lo, hi, i);
      WordsOfSlice(s, lo, hi, e);
      ShiftedCons(Word(i, e), WordsIn(t, e, hi - lo), lo);
    }
  }

  lemma ShiftedNil(d: nat)
    ensures Shifted([], d) == []
  {
  }

  // ---------- Searching ----------

  predicate At(s: string, pat: string, i: nat) {
    i + |pat| <= |s| && s[i..i + |pat|] == pat
  }

  lemma AtIndex(s: string, pat: string, i: nat, k: nat)
    requires k < |pat|
    ensures At(s, pat, i) ==> i + k < |s| && s[i + k] == pat[k]
  {
    if At(s, pat, i) {
      assert s[i + k] == s[i..i + |pat|][k];
    }
  }

  lemma AtFirst(s: string, pat: string, i: nat)
    requires pat != []
    ensures At(s, pat, i) ==> i < |s| && s[i] == pat[0]
  {
    AtIndex(s, pat, i, 0);
  }

  /** The first occurrence of `pat` at or after `i`. */
  function FindFrom(s: string, pat: string, i: nat): (r: Option<nat>)
    requires i <= |s|
    ensures r.Some? ==> i <= r.value && At(s, pat, r.value) && forall j :: i <= j < r.value ==> !At(s, pat, j)
    ensures r.None? ==> forall j :: i <= j ==> !At(s, pat, j)
    decreases |s| - i
  {
    if At(s, pat, i) then Some(i)
    else if i == |s| then None
    else FindFrom(s, pat, i + 1)
  }

  /** `str::find`. */
  function Find(s: string, pat: string): (r: Option<nat>)
    ensures r.Some? ==> At(s, pat, r.value) && forall j :: 0 <= j < r.value ==> !At(s, pat, j)
    ensures r.None? ==> forall j :: 0 <= j ==> !At(s, pat, j)
  {
    FindFrom(s, pat, 0)
  }

  lemma {:induction false} FindIs(s: string, pat: string, i: nat)
    requires At(s, pat, i) && forall j :: 0 <= j < i ==> !At(s, pat, j)
    ensures Find(s, pat) == Some(i)
  {
    var r := Find(s, pat);
    assert r.Some?;
  }

  datatype Split = NoSplit | Split(before: string, after: string)

  /** `str::split_once`. */
  function SplitOnce(s: string, pat: string): Split {
    match Find(s, pat)
    case None => NoSplit
    case Some(i) => Split(s[..i], s[i + |pat|..])
  }

  /** `join` on one character. */
  function Joined(parts: seq<string>, c: char): string {
    if parts == [] then ""
    else if |parts| == 1 then parts[0]
    else parts[0] + ([c] + Joined(parts[1..], c))
  }

  lemma {:induction false} SplitOnceIs(a: string, pat: string, b: string)
    requires forall j :: 0 <= j < |a| ==> !At(a + pat + b, pat, j)
    ensures SplitOnce(a + pat + b, pat) == Split(a, b)
  {
    var s := a + pat + b;
    assert s[|a|..|a| + |pat|] == pat;
    FindIs(s, pat, |a|);
  }
}
