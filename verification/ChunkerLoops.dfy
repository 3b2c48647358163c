/**
 The note chunker: line units, oversized word windows, and a packing loop that backs up for overlap.
 The methods are the loops; the functions beside them say what each loop computes, and
 Chunker proves what the resulting spans promise.
 */
module ChunkerLoops {
  import opened Text

  datatype ChunkSpan = ChunkSpan(charStart: nat, charEnd: nat, text: string)

  datatype Options = Options(targetTokens: nat, maxTokens: nat, overlapTokens: nat)

  datatype Unit = Unit(start: nat, end: nat, words: nat, heading: bool)

  /** The effective sizes: at least one word per chunk, target within max, overlap below target. */
  datatype Sizes = Sizes(max: nat, target: nat, overlap: nat) {
    predicate Valid() { overlap < target <= max }
  }

  /** Each size is the option itself unless a bound is in the way, and then that bound. */
  function Clamped(opts: Options): (z: Sizes)
    ensures z.Valid() && z.max == if opts.maxTokens < 1 then 1 else opts.maxTokens
    ensures 1 <= opts.targetTokens <= z.max ==> z.target == opts.targetTokens
    ensures opts.targetTokens < 1 ==> z.target == 1
    ensures opts.targetTokens > z.max ==> z.target == z.max
    ensures z.overlap <= opts.overlapTokens && (z.overlap == opts.overlapTokens || z.overlap == z.target - 1)
  {
    var max := if opts.maxTokens < 1 then 1 else opts.maxTokens;
    var target := if opts.targetTokens < 1 then 1 else if opts.targetTokens > max then max else opts.targetTokens;
    var overlap := if opts.overlapTokens < target - 1 then opts.overlapTokens else target - 1;
    Sizes(max, target, overlap)
  }

  // ---------- Line units ----------

  /** The offset just after the line that starts at `pos`, its '\n' included. */
  function LineEnd(body: string, pos: nat): (e: nat)
    requires pos < |body|
    ensures pos < e <= |body|
    ensures forall k :: pos <= k < e - 1 ==> body[k] != '\n'
    ensures e < |body| ==> body[e - 1] == '\n'
    decreases |body| - pos
  {
    if body[pos] == '\n' || pos + 1 == |body| then pos + 1 else LineEnd(body, pos + 1)
  }

  /** A unit still open for more lines: where it starts and where its content ends so far. */
  datatype Open = NoneOpen | Open(start: nat, end: nat)

  datatype Step = Step(closed: seq<Unit>, open: Open)

  predicate ValidOpen(body: string, open: Open) {
    open.Open? ==> open.start <= open.end <= |body|
  }

  function UnitOf(body: string, start: nat, end: nat): seq<Unit>
    requires start <= end <= |body|
  {
    var text := body[start..end];
    var words := |WordsIn(text, 0, |text|)|;
    if words == 0 then [] else [Unit(start, end, words, StartsWith(TrimStart(text), '#'))]
  }

  function Flush(body: string, open: Open): seq<Unit>
    requires ValidOpen(body, open)
  {
    if open.Open? then UnitOf(body, open.start, open.end) else []
  }

  /** What the line at `pos` does: the units it closes, and the unit open after it. */
  function Advance(body: string, pos: nat, open: Open): (step: Step)
    requires pos < |body| && ValidOpen(body, open)
    requires open.Open? ==> open.start <= pos
    ensures ValidOpen(body, step.open)
    ensures step.open.Open? ==> step.open.start <= LineEnd(body, pos)
  {
    var line := body[pos..LineEnd(body, pos)];
    var contentEnd := pos + |TrimEnd(line)|;
    if Trim(line) == [] then Step(Flush(body, open), NoneOpen)
    else if StartsWith(Trim(line), '#') then Step(Flush(body, open), Open(pos, contentEnd))
    else Step([], Open(if open.Open? then open.start else pos, contentEnd))
  }

  function UnitsFrom(body: string, pos: nat, open: Open): seq<Unit>
    requires pos <= |body| && ValidOpen(body, open)
    requires open.Open? ==> open.start <= pos
    decreases |body| - pos
  {
    if pos == |body| then Flush(body, open)
    else
      var step := Advance(body, pos, open);
      step.closed + UnitsFrom(body, LineEnd(body, pos), step.open)
  }

  method PushUnit(body: string, units: seq<Unit>, start: nat, end: nat) returns (pushed: seq<Unit>)
    requires start <= end <= |body|
    ensures pushed == units + UnitOf(body, start, end)
  {
    pushed := units;
    if end <= start {
      return;
    }
    var text := body[start..end];
    var words := |WordsIn(text, 0, |text|)|;
    if words == 0 {
      return;
    }
    var heading := StartsWith(TrimStart(text), '#');
    pushed := pushed + [Unit(start, end, words, heading)];
  }

  /** Close the open unit, if there is one. */
  method PushOpen(body: string, units: seq<Unit>, open: Open) returns (pushed: seq<Unit>)
    requires ValidOpen(body, open)
    ensures pushed == units + Flush(body, open)
  {
    pushed := units;
    if open.Open? {
      pushed := PushUnit(body, units, open.start, open.end);
    }
  }

  /** One turn of the line loop: close, open or extend according to the line at `lineStart`. */
  method TakeLine(body: string, lineStart: nat, units: seq<Unit>, open: Open)
    returns (units': seq<Unit>, open': Open)
    requires lineStart < |body| && ValidOpen(body, open)
    requires open.Open? ==> open.start <= lineStart
    ensures units' == units + Advance(body, lineStart, open).closed
    ensures open' == Advance(body, lineStart, open).open
  {
    hide Trim, TrimEnd;
    units', open' := units, open;
    var line := body[lineStart..LineEnd(body, lineStart)];
    var trimmed := Trim(line);
    var contentEnd := lineStart + |TrimEnd(line)|;
    if trimmed == [] {
      units' := PushOpen(body, units, open);
      open' := NoneOpen;
    } else if StartsWith(trimmed, '#') {
      units' := PushOpen(body, units, open);
      open' := Open(lineStart, contentEnd);
    } else if open.Open? {
      open' := Open(open.start, contentEnd);
    } else {
      open' := Open(lineStart, contentEnd);
    }
  }

  method SplitUnits(body: string) returns (units: seq<Unit>)
    ensures units == UnitsFrom(body, 0, NoneOpen)
  {
    hide Advance, Flush;
    units := [];
    var open := NoneOpen;
    var lineStart := 0;
    while lineStart < |body|
      invariant lineStart <= |body| && ValidOpen(body, open)
      invariant open.Open? ==> open.start <= lineStart
      invariant units + UnitsFrom(body, lineStart, open) == UnitsFrom(body, 0, NoneOpen)
    {
      var next := LineEnd(body, lineStart);
      ghost var step := Advance(body, lineStart, open);
      Assoc(units, step.closed, UnitsFrom(body, next, step.open));
      units, open := TakeLine(body, lineStart, units, open);
      lineStart := next;
    }
    units := PushOpen(body, units, open);
  }

  // ---------- Oversized units ----------

  function Min(a: nat, b: nat): nat { if a <= b then a else b }

  /** The window of up to `target` words that starts at word `w`. */
  function Window(ws: seq<Word>, z: Sizes, w: nat): Unit
    requires z.Valid() && w < |ws|
  {
    var endWord := Min(w + z.target, |ws|);
    Unit(ws[w].start, ws[endWord - 1].end, endWord - w, false)
  }

  /** Windows over `ws` from word `w` on, each `target - overlap` words after the one before. */
  function Windows(ws: seq<Word>, z: Sizes, w: nat): seq<Unit>
    requires z.Valid() && w < |ws|
    decreases |ws| - w
  {
    if w + z.target >= |ws| then [Window(ws, z, w)]
    else [Window(ws, z, w)] + Windows(ws, z, w + (z.target - z.overlap))
  }

  function Fit(body: string, u: Unit, z: Sizes): seq<Unit>
    requires z.Valid() && u.start <= u.end <= |body|
  {
    if u.words <= z.max then [u]
    else
      var ws := WordsIn(body, u.start, u.end);
      if ws == [] then [] else Windows(ws, z, 0)
  }

  ghost predicate InBody(body: string, units: seq<Unit>) {
    forall k :: 0 <= k < |units| ==> units[k].start <= units[k].end <= |body|
  }

  function FitAll(body: string, units: seq<Unit>, z: Sizes): seq<Unit>
    requires z.Valid() && InBody(body, units)
  {
    if units == [] then [] else Fit(body, units[0], z) + FitAll(body, units[1..], z)
  }

  /** The offsets of each word's start and end, found in one scan of the characters. */
  method WordBounds(text: string) returns (bounds: seq<Word>)
    ensures bounds == WordsIn(text, 0, |text|)
  {
    bounds := [];
    var wordStart: Option<nat> := None;
    var idx := 0;
    while idx < |text|
      invariant idx <= |text|
      invariant wordStart.Some? ==> wordStart.value < idx
      invariant wordStart.Some? ==> forall k :: wordStart.value <= k < idx ==> !IsSpace(text[k])
      invariant bounds + WordsIn(text, if wordStart.Some? then wordStart.value else idx, |text|)
             == WordsIn(text, 0, |text|)
    {
      if IsSpace(text[idx]) {
        if wordStart.Some? {
          WordEndIs(text, wordStart.value, idx);
          bounds := bounds + [Word(wordStart.value, idx)];
          wordStart := None;
        }
      } else if wordStart.None? {
        wordStart := Some(idx);
      }
      idx := idx + 1;
    }
    if wordStart.Some? {
      WordEndIs(text, wordStart.value, |text|);
      bounds := bounds + [Word(wordStart.value, |text|)];
    }
  }

  lemma {:induction false} WordEndIs(s: string, lo: nat, e: nat)
    requires lo < e <= |s|
    requires forall k :: lo <= k < e ==> !IsSpace(s[k])
    requires e < |s| ==> IsSpace(s[e])
    ensures WordEnd(s, lo, |s|) == e
    ensures WordsIn(s, lo, |s|) == [Word(lo, e)] + if e < |s| then WordsIn(s, e + 1, |s|) else []
  {
    var f := WordEnd(s, lo, |s|);
    assert f == e;
  }

  /** The windows of one unit that is over the limit. */
  method SplitUnit(body: string, unit: Unit, z: Sizes) returns (out: seq<Unit>)
    requires z.Valid() && unit.start <= unit.end <= |body| && unit.words > z.max
    ensures out == Fit(body, unit, z)
  {
    hide WordsIn, Window, Shifted;
    out := [];
    var bounds := WordBounds(body[unit.start..unit.end]);
    var n := |bounds|;
    ghost var ws := WordsIn(body, unit.start, unit.end);
    WordsOfSlice(body, unit.start, unit.end, 0);
    assert ws == Shifted(bounds, unit.start);
    var stride := if z.target - z.overlap < 1 then 1 else z.target - z.overlap;
    var w := 0;
    while w < n
      invariant w < n ==> out + Windows(ws, z, w) == Fit(body, unit, z)
      invariant w >= n ==> out == Fit(body, unit, z)
    {
      var endWord := Min(w + z.target, n);
      var piece := Unit(unit.start + bounds[w].start, unit.start + bounds[endWord - 1].end, endWord - w, false);
      WindowIs(bounds, unit.start, z, w);
      if endWord >= n {
        out := out + [piece];
        break;
      }
      Assoc(out, [piece], Windows(ws, z, w + stride));
      out := out + [piece];
      w := w + stride;
    }
  }

  lemma WindowIs(bounds: seq<Word>, start: nat, z: Sizes, w: nat)
    requires z.Valid() && w < |bounds|
    ensures var endWord := Min(w + z.target, |bounds|);
      Window(Shifted(bounds, start), z, w)
      == Unit(start + bounds[w].start, start + bounds[endWord - 1].end, endWord - w, false)
  {
  }

  method SplitOversized(body: string, units: seq<Unit>, z: Sizes) returns (out: seq<Unit>)
    requires z.Valid() && InBody(body, units)
    ensures out == FitAll(body, units, z)
  {
    out := [];
    for m := 0 to |units|
      invariant out + FitAll(body, units[m..], z) == FitAll(body, units, z)
    {
      var unit := units[m];
      assert units[m..][0] == unit && units[m..][1..] == units[m + 1..];
      ghost var out0 := out;
      if unit.words <= z.max {
        out := out + [unit];
      } else {
        var windows := SplitUnit(body, unit, z);
        out := out + windows;
      }
      Assoc(out0, Fit(body, unit, z), FitAll(body, units[m + 1..], z));
    }
  }

  // ---------- Packing ----------

  /** The end of the span that already holds `words` words and is offered unit `j` next. */
  function Fill(us: seq<Unit>, j: nat, words: nat, z: Sizes): (r: nat)
    requires j <= |us|
    ensures j <= r <= |us|
    ensures words == 0 && j < |us| ==> j < r
    decreases |us| - j
  {
    if j == |us| then j
    else
      var w := us[j].words;
      if words > 0 && words + w > z.max then j
      else if words > 0 && us[j].heading then j
      else if words + w >= z.target then j + 1
      else Fill(us, j + 1, words + w, z)
  }

  /** How far the next span may back up from `k` while the units re-included fit the overlap. */
  function BackUp(us: seq<Unit>, i: nat, k: nat, ow: nat, z: Sizes): (r: nat)
    requires i <= k <= |us|
    ensures i <= r <= k
  {
    if k > i && ow + us[k - 1].words <= z.overlap
    then BackUp(us, i, k - 1, ow + us[k - 1].words, z)
    else k
  }

  function Next(us: seq<Unit>, i: nat, j: nat, z: Sizes): (n: nat)
    requires i < j <= |us|
    ensures i < n <= j
  {
    var k := BackUp(us, i, j, 0, z);
    if k > i then k else i + 1
  }

  /** The units a span is cut from: within the body and not running backwards. */
  ghost predicate Packable(body: string, us: seq<Unit>) {
    && InBody(body, us)
    && forall i, j :: 0 <= i <= j < |us| ==> us[i].start <= us[j].end
  }

  function SpanOf(body: string, us: seq<Unit>, i: nat, j: nat): ChunkSpan
    requires i < j <= |us| && Packable(body, us)
  {
    var start, end := us[i].start, us[j - 1].end;
    ChunkSpan(start, end, body[start..end])
  }

  function Pack(body: string, us: seq<Unit>, i: nat, z: Sizes): seq<ChunkSpan>
    requires i < |us| && Packable(body, us)
    decreases |us| - i
  {
    var j := Fill(us, i, 0, z);
    var span := SpanOf(body, us, i, j);
    if j == |us| then [span] else [span] + Pack(body, us, Next(us, i, j, z), z)
  }
}
