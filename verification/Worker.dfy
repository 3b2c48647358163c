/** One incremental pass of the embed worker over a vault. */
module Worker {
  import opened Text
  import opened ChunkerLoops
  import opened Chunker
  import opened Rows
  import opened Store

  type Bytes = seq<bv8>

  /** The readable note files of a vault, by vault-relative path; a path that is absent cannot be read. */
  type Disk = map<string, Bytes>

  /** What the worker gets from its libraries: the content hash, and the note body parsed from a file. */
  datatype Reader = Reader(hash: Bytes -> string, body: (string, Bytes) -> string)

  datatype EmbedWorker = EmbedWorker(
    vault: string, options: Options, reader: Reader,
    id: string, dim: nat, embed: seq<string> -> Result<seq<Vector>, EmbedError>)

  /** The paths on which the database refuses this pass's writes and deletes. */
  datatype Faults = Faults(writes: set<string>, deletes: set<string>)

  datatype WorkerReport = WorkerReport(embedded: nat, skipped: nat, deleted: nat, failed: nat, chunksWritten: nat)

  // ---------- The walk ----------

  /** A directory entry: its path below the vault root, a component being None when it is not UTF-8. */
  datatype Entry = Unreadable | Entry(path: seq<Option<string>>, isFile: bool)

  predicate Hidden(name: Option<string>) {
    name.Some? && StartsWith(name.value, '.')
  }

  predicate EndsWith(s: string, suffix: string) {
    |suffix| <= |s| && s[|s| - |suffix|..] == suffix
  }

  /** A file with extension "md", no hidden component, and a path that is UTF-8 throughout. */
  predicate IsNote(e: Entry) {
    && e.Entry? && e.isFile && e.path != []
    && (forall i :: 0 <= i < |e.path| ==> e.path[i].Some? && !Hidden(e.path[i]))
    && EndsWith(e.path[|e.path| - 1].value, ".md")
  }

  function RelativePath(e: Entry): string
    requires IsNote(e)
  {
    Joined(seq(|e.path|, i requires 0 <= i < |e.path| => e.path[i].value), '/')
  }

  function NotesOf(walk: seq<Entry>): seq<string> {
    if walk == [] then []
    else
      var rest := NotesOf(walk[..|walk| - 1]);
      var e := walk[|walk| - 1];
      if IsNote(e) then rest + [RelativePath(e)] else rest
  }

  // ---------- One note ----------

  function Texts(spans: seq<ChunkSpan>): seq<string> {
    seq(|spans|, i requires 0 <= i < |spans| => spans[i].text)
  }

  function ChunksOf(vault: string, path: string, hash: string, spans: seq<ChunkSpan>, vectors: seq<Vector>): (cs: seq<Chunk>)
    requires |vectors| == |spans|
    ensures |cs| == |spans| && AllOf(cs, vault, path)
    ensures forall i :: 0 <= i < |cs| ==> cs[i].chunkId == i && cs[i].contentHash == hash
  {
    seq(|spans|, i requires 0 <= i < |spans| =>
      Chunk(vault, path, i, spans[i].charStart, spans[i].charEnd, hash, vectors[i]))
  }

  /** A fresh embedding of a note's bytes. */
  function Fresh(w: EmbedWorker, path: string, bytes: Bytes): Result<seq<Chunk>, EmbedError> {
    var spans := Chunks(w.reader.body(path, bytes), w.options);
    if spans == [] then Ok([])
    else
      match w.embed(Texts(spans))
      case Err(e) => Err(e)
      case Ok(vectors) =>
        if |vectors| != |spans| then Err(Embed("wrong number of vectors"))
        else Ok(ChunksOf(w.vault, path, w.reader.hash(bytes), spans, vectors))
  }

  /** What processing a note comes to: no write, a write of these chunks, or a failure. */
  datatype Change = Skip | Write(chunks: seq<Chunk>) | Fail(error: EmbedError)

  function ChangeFor(w: EmbedWorker, disk: Disk, faults: Faults, stored: map<string, string>, path: string): Change {
    if path !in disk then Fail(Io)
    else if path in stored && stored[path] == w.reader.hash(disk[path]) then Skip
    else
      match Fresh(w, path, disk[path])
      case Err(e) => Fail(e)
      case Ok(cs) => if path in faults.writes then Fail(Sqlite) else Write(cs)
  }

  function Apply(t: Table, w: EmbedWorker, path: string, change: Change): Table {
    if change.Write? then Replaced(t, w.vault, path, change.chunks) else t
  }

  datatype Outcome = Skipped | Embedded(chunks: nat)

  method ProcessNote(store: EmbeddingStore, w: EmbedWorker, disk: Disk, faults: Faults,
                     path: string, stored: map<string, string>)
    returns (r: Result<Outcome, EmbedError>)
    modifies store`chunks
    ensures var change := ChangeFor(w, disk, faults, stored, path);
      && store.chunks == Apply(old(store.chunks), w, path, change)
      && r == match change
              case Skip => Ok(Skipped)
              case Write(cs) => Ok(Embedded(|cs|))
              case Fail(e) => Err(e)
  {
    hide Chunks, Replaced;
    if path !in disk {
      return Err(Io);
    }
    var bytes := disk[path];
    var contentHash := w.reader.hash(bytes);
    if path in stored && stored[path] == contentHash {
      return Ok(Skipped);
    }
    var spans := ChunkNote(w.reader.body(path, bytes), w.options);
    if spans == [] {
      var cleared := store.ReplaceNoteChunks(w.vault, path, [], path !in faults.writes);
      if cleared.Err? {
        return Err(Sqlite);
      }
      return Ok(Embedded(0));
    }
    var embedded := w.embed(Texts(spans));
    if embedded.Err? {
      return Err(embedded.error);
    }
    var vectors := embedded.value;
    if |vectors| != |spans| {
      return Err(Embed("wrong number of vectors"));
    }
    var cs := ChunksOf(w.vault, path, contentHash, spans, vectors);
    var written := store.ReplaceNoteChunks(w.vault, path, cs, path !in faults.writes);
    if written.Err? {
      return Err(Sqlite);
    }
    return Ok(Embedded(|cs|));
  }

  // ---------- The pass ----------

  /** The table after the notes are processed in order. */
  function AfterNotes(t: Table, w: EmbedWorker, disk: Disk, faults: Faults, stored: map<string, string>, notes: seq<string>): Table {
    if notes == [] then t
    else
      var p := notes[|notes| - 1];
      Apply(AfterNotes(t, w, disk, faults, stored, notes[..|notes| - 1]), w, p, ChangeFor(w, disk, faults, stored, p))
  }

  function Tally(r: WorkerReport, change: Change): WorkerReport {
    match change
    case Skip => r.(skipped := r.skipped + 1)
    case Write(cs) => r.(embedded := r.embedded + 1, chunksWritten := r.chunksWritten + |cs|)
    case Fail(_) => r.(failed := r.failed + 1)
  }

  function ReportFor(w: EmbedWorker, disk: Disk, faults: Faults, stored: map<string, string>, notes: seq<string>): (r: WorkerReport)
    ensures r.embedded + r.skipped + r.failed == |notes|
    ensures r.deleted == 0
  {
    if notes == [] then WorkerReport(0, 0, 0, 0, 0)
    else
      var p := notes[|notes| - 1];
      Tally(ReportFor(w, disk, faults, stored, notes[..|notes| - 1]), ChangeFor(w, disk, faults, stored, p))
  }

  /** The stored notes that are no longer on disk and that the database lets go. */
  function Removed(faults: Faults, stored: map<string, string>, notes: seq<string>): set<string> {
    set p | p in stored && p !in notes && p !in faults.deletes
  }

  function WithoutNotes(t: Table, vault: string, gone: set<string>): Table {
    map k | k in t && !(k.vaultName == vault && k.path in gone) :: t[k]
  }

  /** The table after a whole pass. */
  function AfterRun(t: Table, w: EmbedWorker, disk: Disk, faults: Faults, stored: map<string, string>, notes: seq<string>): Table {
    WithoutNotes(AfterNotes(t, w, disk, faults, stored, notes), w.vault, Removed(faults, stored, notes))
  }

  method Walk(walk: seq<Entry>) returns (notes: seq<string>, seen: set<string>)
    ensures notes == NotesOf(walk)
    ensures seen == set p | p in notes
  {
    notes, seen := [], {};
    for i := 0 to |walk|
      invariant notes == NotesOf(walk[..i])
      invariant seen == set p | p in notes
    {
      assert walk[..i + 1][..i] == walk[..i];
      if IsNote(walk[i]) {
        var rel := RelativePath(walk[i]);
        seen := seen + {rel};
        notes := notes + [rel];
      }
    }
    assert walk[..|walk|] == walk;
  }

  /** The first loop of the pass: every note on its own, a failure never stopping the rest. */
  method ProcessNotes(store: EmbeddingStore, w: EmbedWorker, disk: Disk, faults: Faults,
                      notes: seq<string>, stored: map<string, string>)
    returns (report: WorkerReport)
    modifies store`chunks
    ensures store.chunks == AfterNotes(old(store.chunks), w, disk, faults, stored, notes)
    ensures report == ReportFor(w, disk, faults, stored, notes)
  {
    hide ChangeFor, Apply;
    report := WorkerReport(0, 0, 0, 0, 0);
    for i := 0 to |notes|
      invariant store.chunks == AfterNotes(old(store.chunks), w, disk, faults, stored, notes[..i])
      invariant report == ReportFor(w, disk, faults, stored, notes[..i])
    {
      assert notes[..i + 1][..i] == notes[..i];
      var outcome := ProcessNote(store, w, disk, faults, notes[i], stored);
      match outcome {
        case Ok(Skipped) =>
          report := report.(skipped := report.skipped + 1);
        case Ok(Embedded(n)) =>
          report := report.(embedded := report.embedded + 1, chunksWritten := report.chunksWritten + n);
        case Err(_) =>
          report := report.(failed := report.failed + 1);
      }
    }
    assert notes[..|notes|] == notes;
  }

  /** The second loop: stored notes that are no longer on disk are deleted, in any order. */
  method DeleteMissing(store: EmbeddingStore, vault: string, faults: Faults,
                       notes: seq<string>, seen: set<string>, stored: map<string, string>)
    returns (deleted: nat)
    requires seen == set p | p in notes
    modifies store`chunks
    ensures store.chunks == WithoutNotes(old(store.chunks), vault, Removed(faults, stored, notes))
    ensures deleted == |Removed(faults, stored, notes)|
  {
    deleted := 0;
    var rest := stored.Keys;
    ghost var gone: set<string> := {};
    while rest != {}
      invariant rest <= stored.Keys && rest !! gone
      invariant gone == set p | p in stored && p !in rest && p !in notes && p !in faults.deletes
      invariant store.chunks == WithoutNotes(old(store.chunks), vault, gone)
      invariant deleted == |gone|
      decreases rest
    {
      var p :| p in rest;
      rest := rest - {p};
      if p !in seen {
        var r := store.DeleteNote(vault, p, p !in faults.deletes);
        if r.Ok? {
          deleted := deleted + 1;
          gone := gone + {p};
        }
      }
    }
    assert gone == Removed(faults, stored, notes);
  }

  /** `EmbedWorker::run`. The ghost result is the answer of the hash query, taken before any write. */
  method Run(store: EmbeddingStore, w: EmbedWorker, walk: seq<Entry>, disk: Disk, faults: Faults)
    returns (r: Result<WorkerReport, EmbedError>, ghost stored: map<string, string>)
    modifies store
    ensures store.meta == Stamped(old(store.meta), w.id, w.dim).1
    ensures r.Ok? <==> Stamped(old(store.meta), w.id, w.dim).0.Ok?
    ensures r.Err? ==> store.chunks == old(store.chunks)
    ensures r.Ok? ==> Grouped(old(store.chunks), w.vault, stored)
    ensures r.Ok? ==> store.chunks == AfterRun(old(store.chunks), w, disk, faults, stored, NotesOf(walk))
    ensures r.Ok? ==> r.value == ReportFor(w, disk, faults, stored, NotesOf(walk))
                                 .(deleted := |Removed(faults, stored, NotesOf(walk))|)
  {
    stored := map[];
    var stamp := store.EnsureEmbedder(w.id, w.dim);
    if stamp.Err? {
      return Err(stamp.error), stored;
    }
    var hashes := store.StoredHashes(w.vault);
    stored := hashes;
    var notes, seen := Walk(walk);
    var report := ProcessNotes(store, w, disk, faults, notes, hashes);
    var deleted := DeleteMissing(store, w.vault, faults, notes, seen, hashes);
    return Ok(report.(deleted := deleted)), stored;
  }
}
