/** Matching a transcript's timestamp to the nearest occurrence of a meeting. Moments are real seconds. */
module TranscriptMatch {
  import opened Text
  import opened Sorting

  datatype Occurrence = Occurrence(start: Option<real>, end: Option<real>, eventId: string)

  datatype Scored = Scored(distance: real, occ: Occurrence)

  datatype Match =
    | NoTimestamp
    | NoUsable
    | TooFar(distance: real)
    | Best(occ: Occurrence, margin: Option<real>)

  /** Seconds from `moment` to the interval between two ends, in either order. */
  function DistanceToWindow(moment: real, start: real, end: real): (d: real)
    ensures d >= 0.0
  {
    var (lo, hi) := if end < start then (end, start) else (start, end);
    if lo <= moment <= hi then 0.0
    else if moment < lo then lo - moment
    else moment - hi
  }

  predicate Usable(o: Occurrence) { o.start.Some? && o.end.Some? }

  function Distance(moment: real, o: Occurrence): real
    requires Usable(o)
  {
    DistanceToWindow(moment, o.start.value, o.end.value)
  }

  function ScoreAll(moment: real, occs: seq<Occurrence>): seq<Scored> {
    if occs == [] then []
    else
      var rest := ScoreAll(moment, occs[..|occs| - 1]);
      var o := occs[|occs| - 1];
      if Usable(o) then rest + [Scored(Distance(moment, o), o)] else rest
  }

  predicate AllUsable(s: seq<Scored>) {
    forall i :: 0 <= i < |s| ==> Usable(s[i].occ)
  }

  /** The sort key: distance, then start. */
  predicate AtMost(a: Scored, b: Scored) {
    && Usable(a.occ) && Usable(b.occ)
    && (a.distance < b.distance || (a.distance == b.distance && a.occ.start.value <= b.occ.start.value))
  }

  lemma {:induction false} ScoresUsable(moment: real, occs: seq<Occurrence>)
    ensures AllUsable(ScoreAll(moment, occs))
  {
    if occs != [] { ScoresUsable(moment, occs[..|occs| - 1]); }
  }

  function MatchOf(moment: Option<real>, occs: seq<Occurrence>, tolerance: real): Match {
    if moment.None? then NoTimestamp
    else
      var scored := Sort(ScoreAll(moment.value, occs), AtMost);
      if scored == [] then NoUsable
      else if scored[0].distance > tolerance then TooFar(scored[0].distance)
      else Best(scored[0].occ, if |scored| > 1 then Some(scored[1].distance - scored[0].distance) else None)
  }

  method MatchTranscript(moment: Option<real>, occs: seq<Occurrence>, tolerance: real) returns (r: Match)
    ensures r == MatchOf(moment, occs, tolerance)
  {
    hide Distance, Sort;
    if moment.None? {
      return NoTimestamp;
    }
    var scored := [];
    for i := 0 to |occs|
      invariant scored == ScoreAll(moment.value, occs[..i])
    {
      assert occs[..i + 1][..i] == occs[..i];
      if !Usable(occs[i]) {
        continue;
      }
      scored := scored + [Scored(Distance(moment.value, occs[i]), occs[i])];
    }
    assert occs[..|occs|] == occs;
    if scored == [] {
      return NoUsable;
    }
    scored := Sort(scored, AtMost);
    var best := scored[0];
    if best.distance > tolerance {
      return TooFar(best.distance);
    }
    var margin := if |scored| > 1 then Some(scored[1].distance - best.distance) else None;
    return Best(best.occ, margin);
  }

  // ---------- Order ----------

  ghost predicate InOrder(s: seq<Scored>) {
    && AllUsable(s)
    && forall i, j :: 0 <= i < j < |s| ==> AtMost(s[i], s[j])
  }

  lemma {:induction false} SortedInOrder(s: seq<Scored>)
    requires AllUsable(s)
    ensures InOrder(Sort(s, AtMost))
  {
    if s != [] {
      var rest := Sort(s[1..], AtMost);
      SortedInOrder(s[1..]);
      assert Ordered(rest, AtMost);
      assert forall y :: y in rest ==> Usable(y.occ);
      InsertOrdered(s[0], rest, AtMost, AtMost);
      forall i | 0 <= i < |Sort(s, AtMost)|
        ensures Usable(Sort(s, AtMost)[i].occ)
      {
        SortMember(s, AtMost, Sort(s, AtMost)[i]);
      }
    }
  }

  lemma {:induction false} ScoreMember(moment: real, occs: seq<Occurrence>, x: Scored)
    ensures x in ScoreAll(moment, occs) <==> x.occ in occs && Usable(x.occ) && x.distance == Distance(moment, x.occ)
  {
    hide Distance;
    if occs != [] {
      var n := |occs| - 1;
      ScoreMember(moment, occs[..n], x);
      assert occs == occs[..n] + [occs[n]];
    }
  }

  /** The ranking that the match is read off: every usable occurrence with its distance, in order. */
  lemma {:induction false} Ranking(moment: real, occs: seq<Occurrence>) returns (r: seq<Scored>)
    ensures AllUsable(ScoreAll(moment, occs)) && r == Sort(ScoreAll(moment, occs), AtMost)
    ensures InOrder(r)
    ensures forall x :: x in r <==> x.occ in occs && Usable(x.occ) && x.distance == Distance(moment, x.occ)
  {
    hide Distance, Sort, AtMost;
    ScoresUsable(moment, occs);
    var s := ScoreAll(moment, occs);
    r := Sort(s, AtMost);
    SortedInOrder(s);
    forall x
      ensures x in r <==> x.occ in occs && Usable(x.occ) && x.distance == Distance(moment, x.occ)
    {
      ScoreMember(moment, occs, x);
      SortMember(s, AtMost, x);
    }
  }

  // ---------- What a match means ----------

  lemma {:induction false} HeadIsLeast(r: seq<Scored>, x: Scored)
    requires InOrder(r) && x in r
    ensures r[0].distance <= x.distance
    ensures r[0].distance == x.distance ==> r[0].occ.start.value <= x.occ.start.value
    ensures x != r[0] ==> |r| > 1 && r[1].distance <= x.distance
  {
    var i :| 0 <= i < |r| && r[i] == x;
    if i > 0 {
      assert AtMost(r[0], r[i]);
      if i > 1 { assert AtMost(r[1], r[i]); }
    }
  }

  /** The chosen occurrence is a nearest usable one, the earliest of those; every other is farther by at least the margin. */
  lemma {:induction false} BestIsNearest(moment: real, occs: seq<Occurrence>, tolerance: real, o: Occurrence)
    requires MatchOf(Some(moment), occs, tolerance).Best? && o in occs && Usable(o)
    ensures var b := MatchOf(Some(moment), occs, tolerance);
      && b.occ in occs && Usable(b.occ) && Distance(moment, b.occ) <= tolerance
      && Distance(moment, b.occ) <= Distance(moment, o)
      && (Distance(moment, b.occ) == Distance(moment, o) ==> b.occ.start.value <= o.start.value)
      && (b.margin.Some? ==> b.margin.value >= 0.0)
      && (o != b.occ ==> b.margin.Some? && Distance(moment, o) >= Distance(moment, b.occ) + b.margin.value)
  {
    hide Distance, Sort, AtMost, InOrder;
    var r := Ranking(moment, occs);
    var x := Scored(Distance(moment, o), o);
    assert x in r && r[0] in r;
    HeadIsLeast(r, x);
    if |r| > 1 { HeadIsLeast(r, r[1]); }
  }

  /** Nothing is chosen exactly when no occurrence is usable, or every usable one is beyond the tolerance. */
  lemma {:induction false} NothingChosen(moment: real, occs: seq<Occurrence>, tolerance: real)
    ensures MatchOf(Some(moment), occs, tolerance).Best?
       <==> exists o :: o in occs && Usable(o) && Distance(moment, o) <= tolerance
  {
    hide Distance, Sort, AtMost, InOrder;
    var r := Ranking(moment, occs);
    if o :| o in occs && Usable(o) && Distance(moment, o) <= tolerance {
      assert Scored(Distance(moment, o), o) in r;
      HeadIsLeast(r, Scored(Distance(moment, o), o));
    }
    if r != [] { assert r[0] in r; }
  }

  /** The distance to an occurrence is that to the nearest moment of its window, whose ends may be in either order. */
  lemma {:induction false} DistanceIsLeast(moment: real, o: Occurrence, p: real)
    requires Usable(o)
    ensures var d, start, end := Distance(moment, o), o.start.value, o.end.value;
      && (start <= p <= end || end <= p <= start ==> d <= Apart(moment, p))
      && (exists q :: (start <= q <= end || end <= q <= start) && Apart(moment, q) == d)
  {
    var d, start, end := Distance(moment, o), o.start.value, o.end.value;
    var lo, hi := if end < start then end else start, if end < start then start else end;
    var q := if moment < lo then lo else if moment > hi then hi else moment;
    assert (start <= q <= end || end <= q <= start) && Apart(moment, q) == d;
  }

  function Apart(a: real, b: real): real { if a < b then b - a else a - b }

  /** Without a timestamp nothing is scored; without a usable occurrence there is nothing to choose; and what is too far is the nearest. */
  lemma {:induction false} NoMatchVerdicts(moment: Option<real>, occs: seq<Occurrence>, tolerance: real)
    ensures var r := MatchOf(moment, occs, tolerance);
      && (r.NoTimestamp? <==> moment.None?)
      && (r.NoUsable? <==> moment.Some? && forall o :: o in occs ==> !Usable(o))
      && (r.TooFar? ==>
            && r.distance > tolerance
            && (exists o :: o in occs && Usable(o) && Distance(moment.value, o) == r.distance)
            && forall o :: o in occs && Usable(o) ==> Distance(moment.value, o) >= r.distance)
  {
    hide Distance, Sort, AtMost, InOrder;
    if moment.Some? {
      var r := Ranking(moment.value, occs);
      forall o | o in occs && Usable(o)
        ensures r != [] && r[0].distance <= Distance(moment.value, o)
      {
        assert Scored(Distance(moment.value, o), o) in r;
        HeadIsLeast(r, Scored(Distance(moment.value, o), o));
      }
      if r != [] { assert r[0] in r; }
    }
  }

  /** The margin is how much farther some other entry of the list is; there is none exactly for a single usable entry. */
  lemma {:induction false} MarginIsAttained(moment: real, occs: seq<Occurrence>, tolerance: real)
    requires MatchOf(Some(moment), occs, tolerance).Best?
    ensures var b := MatchOf(Some(moment), occs, tolerance);
      && b.occ in occs && Usable(b.occ)
      && (b.margin.None? <==> |ScoreAll(moment, occs)| == 1)
      && (b.margin.Some? ==> exists o :: o in occs && Usable(o) && Distance(moment, o) == Distance(moment, b.occ) + b.margin.value)
  {
    hide Distance, Sort, AtMost, InOrder;
    var r := Ranking(moment, occs);
    assert r[0] in r;
    if |r| > 1 { assert r[1] in r; }
  }

  /** One entry is scored for each usable entry of the list. */
  lemma {:induction false} ScoredEntries(moment: real, occs: seq<Occurrence>)
    ensures |ScoreAll(moment, occs)| == |set i: nat | i < |occs| && Usable(occs[i])|
  {
    if occs == [] {
      assert (set i: nat | i < |occs| && Usable(occs[i])) == {};
    } else {
      var n: nat := |occs| - 1;
      ScoredEntries(moment, occs[..n]);
      assert (set i: nat | i < |occs| && Usable(occs[i]))
          == (set i: nat | i < n && Usable(occs[..n][i])) + if Usable(occs[n]) then {n} else {};
    }
  }

  /** The distance changes by no more than the moment does. */
  lemma DistanceLipschitz(m: real, n: real, o: Occurrence, shift: real)
    requires Usable(o) && -shift <= m - n <= shift
    ensures -shift <= Distance(m, o) - Distance(n, o) <= shift
  {
  }

  /** If the margin exceeds twice a shift, a timestamp off by at most that shift gives the same occurrence or none. */
  lemma {:induction false} MatchIsRobust(m: real, n: real, occs: seq<Occurrence>, tolerance: real, shift: real)
    requires -shift <= m - n <= shift
    requires var b := MatchOf(Some(m), occs, tolerance);
      b.Best? && (b.margin.Some? ==> b.margin.value > 2.0 * shift)
    ensures var b, c := MatchOf(Some(m), occs, tolerance), MatchOf(Some(n), occs, tolerance);
      c.TooFar? || (c.Best? && c.occ == b.occ)
  {
    hide Distance, Sort, AtMost, InOrder;
    var b, c := MatchOf(Some(m), occs, tolerance), MatchOf(Some(n), occs, tolerance);
    var r := Ranking(m, occs);
    var q := Ranking(n, occs);
    assert r[0] in r;
    assert Scored(Distance(n, b.occ), b.occ) in q;
    if c.Best? && c.occ != b.occ {
      assert q[0] in q;
      BestIsNearest(m, occs, tolerance, c.occ);
      BestIsNearest(n, occs, tolerance, b.occ);
      DistanceLipschitz(m, n, b.occ, shift);
      DistanceLipschitz(m, n, c.occ, shift);
    }
  }

  /** Of entries at the same distance with the same start, the one chosen stands first in the list. */
  lemma {:induction false} TiesGoToTheFirst(moment: real, occs: seq<Occurrence>, tolerance: real, d: real, start: real)
    requires var b := MatchOf(Some(moment), occs, tolerance);
      b.Best? && Usable(b.occ) && Distance(moment, b.occ) == d && b.occ.start == Some(start)
    ensures var tied := Chosen(ScoreAll(moment, occs), (x: Scored) => x.distance == d && x.occ.start == Some(start));
      tied != [] && tied[0].occ == MatchOf(Some(moment), occs, tolerance).occ
  {
    hide Distance, InOrder;
    var s := ScoreAll(moment, occs);
    var p := (x: Scored) => x.distance == d && x.occ.start == Some(start);
    ScoresUsable(moment, occs);
    SortStable(s, AtMost, p);
    var r := Ranking(moment, occs);
    assert r[0] in r;
    assert p(r[0]);
  }
}
