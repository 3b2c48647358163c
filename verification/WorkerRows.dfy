/**
 What a pass writes, row by row: the rows of a note against the spans of its body, the texts between their
 offsets and the embedder's answer for those texts; and which entries of the walk are notes.
 */
module WorkerRows {
  import opened Text
  import opened ChunkerLoops
  import opened ChunkerUnits
  import opened Chunker
  import opened Rows
  import opened Store
  import opened Worker
  import opened Incremental

  ghost function SpansOf(w: EmbedWorker, path: string, bytes: Bytes): seq<ChunkSpan> {
    Chunks(w.reader.body(path, bytes), w.options)
  }

  /** The list whose k-th text is the body between the k-th span's offsets. */
  ghost predicate SpanTexts(w: EmbedWorker, path: string, bytes: Bytes, texts: seq<string>) {
    var body, spans := w.reader.body(path, bytes), SpansOf(w, path, bytes);
    && |texts| == |spans|
    && forall k :: 0 <= k < |spans| ==>
         spans[k].charStart <= spans[k].charEnd <= |body| && texts[k] == body[spans[k].charStart..spans[k].charEnd]
  }

  lemma {:induction false} TextsAreSlices(w: EmbedWorker, path: string, bytes: Bytes)
    ensures SpanTexts(w, path, bytes, Texts(SpansOf(w, path, bytes)))
    ensures forall texts :: SpanTexts(w, path, bytes, texts) ==> texts == Texts(SpansOf(w, path, bytes))
  {
    hide Chunks, Rank, WordsIn;
    var body, spans := w.reader.body(path, bytes), SpansOf(w, path, bytes);
    forall k | 0 <= k < |spans|
      ensures spans[k].charStart <= spans[k].charEnd <= |body| && spans[k].text == body[spans[k].charStart..spans[k].charEnd]
    {
      SpanText(body, w.options, k);
    }
  }

  /** The vectors a note's spans get: none when there are no spans, else what the embedder answers, if it counts right. */
  ghost predicate Answers(w: EmbedWorker, path: string, bytes: Bytes, texts: seq<string>, vectors: seq<Vector>) {
    && |vectors| == |SpansOf(w, path, bytes)|
    && (SpansOf(w, path, bytes) == [] || w.embed(texts) == Ok(vectors))
  }

  /** Row i of the note has the offsets of span i and vector i, and there is no other row. */
  ghost predicate HoldsRows(t: Table, w: EmbedWorker, path: string, bytes: Bytes, vectors: seq<Vector>) {
    var spans := SpansOf(w, path, bytes);
    && |vectors| == |spans|
    && (forall k :: k in t && k.vaultName == w.vault && k.path == path ==> k.chunkId < |spans|)
    && (forall i :: 0 <= i < |spans| ==>
          && Key(w.vault, path, i) in t
          && t[Key(w.vault, path, i)]
             == Chunk(w.vault, path, i, spans[i].charStart, spans[i].charEnd, w.reader.hash(bytes), vectors[i]))
  }

  /** The note's stored hash is that of its bytes on disk. */
  predicate UpToDate(w: EmbedWorker, disk: Disk, stored: map<string, string>, path: string) {
    path in disk && path in stored && stored[path] == w.reader.hash(disk[path])
  }

  /** What processing a note comes to, by its bytes, the embedder's answer for its texts, and the database. */
  lemma {:induction false} ChangeDecided(w: EmbedWorker, disk: Disk, faults: Faults, stored: map<string, string>,
                                         path: string, texts: seq<string>)
    requires path in disk ==> SpanTexts(w, path, disk[path], texts)
    ensures var change := ChangeFor(w, disk, faults, stored, path);
      && (change.Skip? <==> UpToDate(w, disk, stored, path))
      && (change.Write? <==>
            && path in disk && !UpToDate(w, disk, stored, path) && path !in faults.writes
            && exists vectors :: Answers(w, path, disk[path], texts, vectors))
  {
    hide Chunks, SpanTexts;
    if path in disk {
      TextsAreSlices(w, path, disk[path]);
      if SpansOf(w, path, disk[path]) == [] {
        assert Answers(w, path, disk[path], texts, []);
      } else if w.embed(texts).Ok? && |w.embed(texts).value| == |SpansOf(w, path, disk[path])| {
        assert Answers(w, path, disk[path], texts, w.embed(texts).value);
      }
    }
  }

  /** The rows of a table that holds just a note's fresh chunks there. */
  lemma {:induction false} FreshRows(t: Table, w: EmbedWorker, path: string, bytes: Bytes, texts: seq<string>, vectors: seq<Vector>)
    requires SpanTexts(w, path, bytes, texts) && Answers(w, path, bytes, texts, vectors)
    requires Fresh(w, path, bytes).Ok? && NoteOf(t, w.vault, path) == TableOf(Fresh(w, path, bytes).value)
    ensures HoldsRows(t, w, path, bytes, vectors)
  {
    hide Chunks, SpanTexts, TableOf;
    TextsAreSlices(w, path, bytes);
    var cs := Fresh(w, path, bytes).value;
    var spans := SpansOf(w, path, bytes);
    var note := NoteOf(t, w.vault, path);
    TableOfIndexed(cs, w.vault, path);
    forall k | k in t && k.vaultName == w.vault && k.path == path
      ensures k.chunkId < |spans|
    {
      assert k in note;
    }
    forall i | 0 <= i < |spans|
      ensures Key(w.vault, path, i) in t
      ensures t[Key(w.vault, path, i)]
           == Chunk(w.vault, path, i, spans[i].charStart, spans[i].charEnd, w.reader.hash(bytes), vectors[i])
    {
      assert Key(w.vault, path, i) in note;
    }
  }

  lemma WriteIsFresh(w: EmbedWorker, disk: Disk, faults: Faults, stored: map<string, string>, path: string)
    requires ChangeFor(w, disk, faults, stored, path).Write?
    ensures path in disk && Fresh(w, path, disk[path]) == Ok(ChangeFor(w, disk, faults, stored, path).chunks)
  {
    hide Fresh;
  }

  /**
   Processing a note that is not up to date, when its texts are embedded and the database accepts the write,
   leaves in it a row for each span, with that span's offsets and vector, and changes no other row; in every
   other case it changes nothing.
   */
  lemma {:induction false} NoteProcessed(
      t: Table, w: EmbedWorker, disk: Disk, faults: Faults, stored: map<string, string>,
      path: string, texts: seq<string>, vectors: seq<Vector>)
    requires path in disk && SpanTexts(w, path, disk[path], texts) && Answers(w, path, disk[path], texts, vectors)
    ensures var after := Apply(t, w, path, ChangeFor(w, disk, faults, stored, path));
      if UpToDate(w, disk, stored, path) || path in faults.writes then after == t
      else
        && HoldsRows(after, w, path, disk[path], vectors)
        && forall v, p :: !(v == w.vault && p == path) ==> NoteOf(after, v, p) == NoteOf(t, v, p)
  {
    hide Chunks, SpanTexts, TableOf, Replaced, ChangeFor, NoteOf, HoldsRows, Fresh, Answers;
    ChangeDecided(w, disk, faults, stored, path, texts);
    var change := ChangeFor(w, disk, faults, stored, path);
    if change.Write? {
      WriteIsFresh(w, disk, faults, stored, path);
      ChangeIsNotes(w, disk, faults, stored, path);
      var after := Apply(t, w, path, change);
      forall v, p
        ensures NoteOf(after, v, p) == if v == w.vault && p == path then TableOf(change.chunks) else NoteOf(t, v, p)
      {
        NoteOfReplaced(t, change.chunks, v, p, w.vault, path);
      }
      FreshRows(after, w, path, disk[path], texts, vectors);
    }
  }

  /** The same of each note of a whole pass, on the table the pass leaves. */
  lemma {:induction false} PassRows(
      t: Table, w: EmbedWorker, disk: Disk, faults: Faults, stored: map<string, string>, notes: seq<string>,
      path: string, texts: seq<string>, vectors: seq<Vector>)
    requires Grouped(t, w.vault, stored) && path in notes && path in disk
    requires SpanTexts(w, path, disk[path], texts) && Answers(w, path, disk[path], texts, vectors)
    ensures var after := AfterRun(t, w, disk, faults, stored, notes);
      if UpToDate(w, disk, stored, path) || path in faults.writes then NoteOf(after, w.vault, path) == NoteOf(t, w.vault, path)
      else HoldsRows(after, w, path, disk[path], vectors)
  {
    hide Chunks, SpanTexts, TableOf, ChangeFor, NoteOf, HoldsRows, AfterRun, Fresh, Grouped, Answers;
    ChangeDecided(w, disk, faults, stored, path, texts);
    NoteAfterRun(t, w, disk, faults, stored, notes, w.vault, path);
    if ChangeFor(w, disk, faults, stored, path).Write? {
      WriteIsFresh(w, disk, faults, stored, path);
      FreshRows(AfterRun(t, w, disk, faults, stored, notes), w, path, disk[path], texts, vectors);
    }
  }

  /** A walked note that cannot be read, or whose texts are not embedded one for one, keeps its rows. */
  lemma {:induction false} FailedKeepsRows(
      t: Table, w: EmbedWorker, disk: Disk, faults: Faults, stored: map<string, string>, notes: seq<string>,
      path: string, texts: seq<string>)
    requires Grouped(t, w.vault, stored) && path in notes
    requires path in disk ==>
      SpanTexts(w, path, disk[path], texts) && forall vectors :: !Answers(w, path, disk[path], texts, vectors)
    ensures NoteOf(AfterRun(t, w, disk, faults, stored, notes), w.vault, path) == NoteOf(t, w.vault, path)
  {
    hide Chunks, SpanTexts, TableOf, ChangeFor, NoteOf, AfterRun, Fresh, Grouped, Answers;
    ChangeDecided(w, disk, faults, stored, path, texts);
    NoteAfterRun(t, w, disk, faults, stored, notes, w.vault, path);
  }

  // ---------- The report ----------

  /** The walk's positions whose note comes to a change of one kind. */
  function Which(w: EmbedWorker, disk: Disk, faults: Faults, stored: map<string, string>, notes: seq<string>,
                 kind: Change -> bool): set<nat> {
    set i: nat | i < |notes| && kind(ChangeFor(w, disk, faults, stored, notes[i]))
  }

  lemma {:induction false} WhichLast(w: EmbedWorker, disk: Disk, faults: Faults, stored: map<string, string>, notes: seq<string>,
                                     kind: Change -> bool)
    requires notes != []
    ensures var n := |notes| - 1;
      |Which(w, disk, faults, stored, notes, kind)|
      == |Which(w, disk, faults, stored, notes[..n], kind)| + if kind(ChangeFor(w, disk, faults, stored, notes[n])) then 1 else 0
  {
    hide ChangeFor;
    var n: nat := |notes| - 1;
    var all, rest := Which(w, disk, faults, stored, notes, kind), Which(w, disk, faults, stored, notes[..n], kind);
    assert n !in rest && all - {n} == rest;
    assert n in all <==> kind(ChangeFor(w, disk, faults, stored, notes[n]));
    if n in all { assert all == rest + {n}; }
  }

  /** The report counts the notes written, skipped and failed. */
  lemma {:induction false} ReportCounts(w: EmbedWorker, disk: Disk, faults: Faults, stored: map<string, string>, notes: seq<string>)
    ensures var r := ReportFor(w, disk, faults, stored, notes);
      && r.embedded == |Which(w, disk, faults, stored, notes, (c: Change) => c.Write?)|
      && r.skipped == |Which(w, disk, faults, stored, notes, (c: Change) => c.Skip?)|
      && r.failed == |Which(w, disk, faults, stored, notes, (c: Change) => c.Fail?)|
  {
    hide ChangeFor, Which;
    if notes == [] {
      NoneCounted(w, disk, faults, stored);
    } else {
      ReportCounts(w, disk, faults, stored, notes[..|notes| - 1]);
      WhichLast(w, disk, faults, stored, notes, (c: Change) => c.Write?);
      WhichLast(w, disk, faults, stored, notes, (c: Change) => c.Skip?);
      WhichLast(w, disk, faults, stored, notes, (c: Change) => c.Fail?);
    }
  }

  lemma NoneCounted(w: EmbedWorker, disk: Disk, faults: Faults, stored: map<string, string>)
    ensures forall kind: Change -> bool :: Which(w, disk, faults, stored, [], kind) == {}
  {
  }

  /** The chunks written add up over the notes, and a note that is written counts its spans. */
  lemma {:induction false} ChunksWrittenAdd(w: EmbedWorker, disk: Disk, faults: Faults, stored: map<string, string>,
                                             a: seq<string>, b: seq<string>)
    ensures ReportFor(w, disk, faults, stored, a + b).chunksWritten
         == ReportFor(w, disk, faults, stored, a).chunksWritten + ReportFor(w, disk, faults, stored, b).chunksWritten
  {
    hide ChangeFor;
    if b == [] {
      assert a + b == a;
    } else {
      var n := |b| - 1;
      assert (a + b)[..|a| + n] == a + b[..n];
      ChunksWrittenAdd(w, disk, faults, stored, a, b[..n]);
    }
  }

  lemma {:induction false} ChunksWrittenOne(w: EmbedWorker, disk: Disk, faults: Faults, stored: map<string, string>, path: string)
    ensures ReportFor(w, disk, faults, stored, [path]).chunksWritten
         == if ChangeFor(w, disk, faults, stored, path).Write? then |SpansOf(w, path, disk[path])| else 0
  {
    hide Chunks;
    assert [path][..0] == [];
    assert ReportFor(w, disk, faults, stored, []).chunksWritten == 0;
  }

  // ---------- The walk ----------

  /** A path as the file system gives it: components that are not empty and hold no slash. */
  predicate ProperPath(e: Entry) {
    e.Entry? && e.path != []
    && forall i :: 0 <= i < |e.path| ==> e.path[i].Some? ==> e.path[i].value != "" && '/' !in e.path[i].value
  }

  /** No component of a relative path starts with a dot. */
  ghost predicate NoDotComponent(path: string) {
    !StartsWith(path, '.') && forall j :: 0 <= j < |path| ==> !At(path, "/.", j)
  }

  /** Putting a component in front of a path adds a dot component exactly when it starts with a dot. */
  lemma {:induction false} DotsOfPair(first: string, tail: string)
    requires first != "" && '/' !in first && tail != ""
    ensures NoDotComponent(first + (['/'] + tail)) <==> !StartsWith(first, '.') && NoDotComponent(tail)
  {
    var path, n := first + (['/'] + tail), |first|;
    forall j | 0 <= j < |path|
      ensures j < n ==> !At(path, "/.", j)
      ensures j == n ==> (At(path, "/.", j) <==> tail[0] == '.')
      ensures j > n ==> (At(path, "/.", j) <==> At(tail, "/.", j - n - 1))
    {
      AtFirst(path, "/.", j);
      if j == n { assert path[n..n + 2] == ['/', tail[0]]; }
      if j > n && j + 2 <= |path| { assert path[j..j + 2] == tail[j - n - 1..j - n + 1]; }
    }
    if NoDotComponent(path) {
      assert !At(path, "/.", n);
      forall j | 0 <= j < |tail|
        ensures !At(tail, "/.", j)
      {
        assert !At(path, "/.", j + n + 1);
      }
    }
  }

  lemma {:induction false} JoinedDots(parts: seq<string>)
    requires parts != [] && forall i :: 0 <= i < |parts| ==> parts[i] != "" && '/' !in parts[i]
    ensures Joined(parts, '/') != ""
    ensures NoDotComponent(Joined(parts, '/')) <==> forall i :: 0 <= i < |parts| ==> !StartsWith(parts[i], '.')
  {
    hide NoDotComponent, StartsWith;
    if |parts| == 1 {
      NoSlashNoDot(parts[0]);
    } else {
      assert forall i :: 0 <= i < |parts| - 1 ==> parts[1..][i] == parts[i + 1];
      JoinedDots(parts[1..]);
      DotsOfPair(parts[0], Joined(parts[1..], '/'));
      assert forall i :: 0 < i < |parts| ==> parts[i] == parts[1..][i - 1];
    }
  }

  lemma NoSlashNoDot(name: string)
    requires '/' !in name
    ensures NoDotComponent(name) <==> !StartsWith(name, '.')
  {
    forall j | 0 <= j < |name|
      ensures !At(name, "/.", j)
    {
      AtFirst(name, "/.", j);
    }
  }

  lemma {:induction false} JoinedEnd(parts: seq<string>, suffix: string)
    requires parts != [] && '/' !in suffix && EndsWith(parts[|parts| - 1], suffix)
    ensures EndsWith(Joined(parts, '/'), suffix)
  {
    if |parts| > 1 {
      JoinedEnd(parts[1..], suffix);
      var tail := Joined(parts[1..], '/');
      var path := Joined(parts, '/');
      assert path == parts[0] + (['/'] + tail);
      assert path[|path| - |suffix|..] == tail[|tail| - |suffix|..];
    }
  }

  lemma {:induction false} JoinedEndOnly(parts: seq<string>, suffix: string)
    requires parts != [] && suffix != "" && '/' !in suffix && EndsWith(Joined(parts, '/'), suffix)
    ensures EndsWith(parts[|parts| - 1], suffix)
  {
    if |parts| > 1 {
      var tail := Joined(parts[1..], '/');
      var path := Joined(parts, '/');
      var n, m := |parts[0]| + 1, |path| - |suffix|;
      assert path == parts[0] + (['/'] + tail);
      assert path[n - 1] == '/';
      assert forall i :: m <= i < |path| ==> path[i] == suffix[i - m];
      assert m >= n;
      assert path[m..] == tail[m - n..];
      JoinedEndOnly(parts[1..], suffix);
    }
  }

  function PartsOf(e: Entry): seq<string>
    requires e.Entry? && forall i :: 0 <= i < |e.path| ==> e.path[i].Some?
  {
    seq(|e.path|, i requires 0 <= i < |e.path| => e.path[i].value)
  }

  /**
   An entry is walked as a note exactly when it is a file whose path is UTF-8, ends in ".md" and has no component
   that starts with a dot; its note path is that path, joined by slashes.
   */
  lemma {:induction false} WalkedByPath(e: Entry)
    requires ProperPath(e)
    ensures NotesOf([e])
         == if e.isFile && (forall i :: 0 <= i < |e.path| ==> e.path[i].Some?)
               && EndsWith(Joined(PartsOf(e), '/'), ".md") && NoDotComponent(Joined(PartsOf(e), '/'))
            then [Joined(PartsOf(e), '/')] else []
  {
    hide Joined, NoDotComponent;
    assert [e][..0] == [] && NotesOf([]) == [];
    if e.isFile && forall i :: 0 <= i < |e.path| ==> e.path[i].Some? {
      var parts := PartsOf(e);
      JoinedDots(parts);
      assert forall i :: 0 <= i < |parts| ==> (Hidden(e.path[i]) <==> StartsWith(parts[i], '.'));
      if EndsWith(parts[|parts| - 1], ".md") {
        JoinedEnd(parts, ".md");
      } else if EndsWith(Joined(parts, '/'), ".md") {
        JoinedEndOnly(parts, ".md");
      }
    }
  }
}
