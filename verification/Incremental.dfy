/**
 What incremental passes promise over whole histories of opens, passes and edits: the store always
 holds what its named embedder makes of some content of each note, so a pass brings every note it
 can process to its fresh embedding, equals a rebuild, and leaves nothing for a second pass to do.
 */
module Incremental {
  import opened Text
  import opened ChunkerLoops
  import opened Chunker
  import opened Rows
  import opened Store
  import opened Worker

  /** The vectors an embedder gives when it succeeds: one for each text. */
  type Model = m: seq<string> -> seq<Vector> | forall ts :: |m(ts)| == |ts|
    witness (ts: seq<string>) => seq(|ts|, i => [])

  /** What stays fixed over a history: the reader, the chunker options, and what each embedder id stands for. */
  datatype Setting = Setting(reader: Reader, options: Options, models: string -> Model)

  ghost predicate Injective(reader: Reader) {
    forall a, b :: reader.hash(a) == reader.hash(b) ==> a == b
  }

  /** A worker of this setting: its embedder may fail or miscount, but a full answer is its model's. */
  ghost predicate Honest(s: Setting, w: EmbedWorker) {
    && w.reader == s.reader && w.options == s.options
    && forall ts :: w.embed(ts).Ok? && |w.embed(ts).value| == |ts| ==> w.embed(ts).value == s.models(w.id)(ts)
  }

  /** The chunks a note's content has under the embedder named `id`. */
  function Ideal(s: Setting, id: string, vault: string, path: string, bytes: Bytes): (cs: seq<Chunk>)
    ensures AllOf(cs, vault, path)
    ensures forall i :: 0 <= i < |cs| ==> cs[i].chunkId == i && cs[i].contentHash == s.reader.hash(bytes)
  {
    var spans := Chunks(s.reader.body(path, bytes), s.options);
    ChunksOf(vault, path, s.reader.hash(bytes), spans, s.models(id)(Texts(spans)))
  }

  lemma {:induction false} FreshIsIdeal(s: Setting, w: EmbedWorker, path: string, bytes: Bytes)
    requires Honest(s, w) && Fresh(w, path, bytes).Ok?
    ensures Fresh(w, path, bytes).value == Ideal(s, w.id, w.vault, path, bytes)
  {
    hide Chunks;
    var spans := Chunks(w.reader.body(path, bytes), w.options);
    assert |Texts(spans)| == |spans|;
    if spans == [] {
      assert Ideal(s, w.id, w.vault, path, bytes) == [];
    }
  }

  /** Each note holds either nothing or exactly what the embedder makes of some content. */
  ghost predicate Faithful(s: Setting, id: string, t: Table) {
    forall v, p :: NoteOf(t, v, p) != map[] ==> FromContent(s, id, t, v, p)
  }

  ghost predicate FromContent(s: Setting, id: string, t: Table, v: string, p: string) {
    exists bytes :: NoteOf(t, v, p) == TableOf(Ideal(s, id, v, p, bytes))
  }

  // ---------- One pass, note by note ----------

  function NoteAfter(before: Table, change: Change): Table {
    if change.Write? then TableOf(change.chunks) else before
  }

  lemma {:induction false} ChangeIsNotes(w: EmbedWorker, disk: Disk, faults: Faults, stored: map<string, string>, p: string)
    ensures var c := ChangeFor(w, disk, faults, stored, p); c.Write? ==> AllOf(c.chunks, w.vault, p)
  {
    hide Chunks;
  }

  lemma {:induction false} NoteAfterNotes(t: Table, w: EmbedWorker, disk: Disk, faults: Faults,
                                          stored: map<string, string>, notes: seq<string>, v: string, p: string)
    ensures NoteOf(AfterNotes(t, w, disk, faults, stored, notes), v, p)
         == if v == w.vault && p in notes
            then NoteAfter(NoteOf(t, v, p), ChangeFor(w, disk, faults, stored, p))
            else NoteOf(t, v, p)
  {
    hide ChangeFor, TableOf, Replaced, NoteOf;
    if notes != [] {
      var n := |notes| - 1;
      var q := notes[n];
      var before := AfterNotes(t, w, disk, faults, stored, notes[..n]);
      NoteAfterNotes(t, w, disk, faults, stored, notes[..n], v, p);
      ChangeIsNotes(w, disk, faults, stored, q);
      var c := ChangeFor(w, disk, faults, stored, q);
      if c.Write? {
        NoteOfReplaced(before, c.chunks, v, p, w.vault, q);
      }
      assert notes == notes[..n] + [q];
      assert p in notes <==> p in notes[..n] || p == q;
    }
  }

  lemma NoteOfWithoutNotes(t: Table, vault: string, gone: set<string>, v: string, p: string)
    ensures NoteOf(WithoutNotes(t, vault, gone), v, p)
         == if v == vault && p in gone then map[] else NoteOf(t, v, p)
  {
  }

  /** What a pass leaves in each note, from what was there before. */
  lemma {:induction false} NoteAfterRun(t: Table, w: EmbedWorker, disk: Disk, faults: Faults,
                                        stored: map<string, string>, notes: seq<string>, v: string, p: string)
    requires Grouped(t, w.vault, stored)
    ensures NoteOf(AfterRun(t, w, disk, faults, stored, notes), v, p)
         == if v != w.vault then NoteOf(t, v, p)
            else if p in notes then NoteAfter(NoteOf(t, v, p), ChangeFor(w, disk, faults, stored, p))
            else if p in faults.deletes then NoteOf(t, v, p)
            else map[]
  {
    hide ChangeFor, NoteOf, TableOf, WithoutNotes, AfterNotes;
    NoteAfterNotes(t, w, disk, faults, stored, notes, v, p);
    NoteOfWithoutNotes(AfterNotes(t, w, disk, faults, stored, notes), w.vault, Removed(faults, stored, notes), v, p);
  }

  // ---------- Hashes ----------

  /** The rows made from some content all carry that content's hash. */
  lemma {:induction false} IdealHash(s: Setting, id: string, v: string, p: string, bytes: Bytes, k: Key)
    requires k in TableOf(Ideal(s, id, v, p, bytes))
    ensures TableOf(Ideal(s, id, v, p, bytes))[k].contentHash == s.reader.hash(bytes)
  {
    hide Chunks, TableOf, Ideal;
    TableOfIndexed(Ideal(s, id, v, p, bytes), v, p);
  }

  /** All rows of one note carry one hash, so the grouped read has one possible answer. */
  lemma {:induction false} OneHashPerNote(s: Setting, id: string, t: Table, j: Key, k: Key)
    requires Faithful(s, id, t) && j in t && k in t && j.vaultName == k.vaultName && j.path == k.path
    ensures t[j].contentHash == t[k].contentHash
  {
    hide Ideal, TableOf;
    var v, p := j.vaultName, j.path;
    assert j in NoteOf(t, v, p) && k in NoteOf(t, v, p);
    assert FromContent(s, id, t, v, p);
    var bytes :| NoteOf(t, v, p) == TableOf(Ideal(s, id, v, p, bytes));
    IdealHash(s, id, v, p, bytes, j);
    IdealHash(s, id, v, p, bytes, k);
  }

  lemma {:induction false} GroupedIsUnique(s: Setting, id: string, t: Table, v: string, m: map<string, string>, n: map<string, string>)
    requires Faithful(s, id, t) && Grouped(t, v, m) && Grouped(t, v, n)
    ensures m == n
  {
    hide Faithful, NoteOf;
    forall p | p in m
      ensures p in n && m[p] == n[p]
    {
      var i :| Key(v, p, i) in t && t[Key(v, p, i)].contentHash == m[p];
      var j :| Key(v, p, j) in t && t[Key(v, p, j)].contentHash == n[p];
      OneHashPerNote(s, id, t, Key(v, p, i), Key(v, p, j));
    }
  }

  /** A note is skipped only when it already holds what its bytes on disk embed to. */
  lemma {:induction false} SkipIsFresh(s: Setting, w: EmbedWorker, t: Table, disk: Disk, faults: Faults,
                                       stored: map<string, string>, p: string)
    requires Injective(s.reader) && Honest(s, w) && Faithful(s, w.id, t) && Grouped(t, w.vault, stored)
    requires ChangeFor(w, disk, faults, stored, p).Skip?
    ensures p in disk && NoteOf(t, w.vault, p) == TableOf(Ideal(s, w.id, w.vault, p, disk[p]))
  {
    hide Ideal, TableOf, Fresh;
    var v := w.vault;
    assert HashOfSomeRow(t, v, p, stored[p]);
    var i :| Key(v, p, i) in t && t[Key(v, p, i)].contentHash == stored[p];
    var k := Key(v, p, i);
    assert k in NoteOf(t, v, p);
    assert FromContent(s, w.id, t, v, p);
    var bytes :| NoteOf(t, v, p) == TableOf(Ideal(s, w.id, v, p, bytes));
    IdealHash(s, w.id, v, p, bytes, k);
    assert bytes == disk[p];
  }

  /** A note that does not fail ends with the fresh embedding of its bytes; one that fails is unchanged. */
  lemma {:induction false} PassRefreshes(s: Setting, w: EmbedWorker, t: Table, disk: Disk, faults: Faults,
                                         stored: map<string, string>, notes: seq<string>, v: string, p: string)
    requires Injective(s.reader) && Honest(s, w) && Faithful(s, w.id, t) && Grouped(t, w.vault, stored)
    ensures !ChangeFor(w, disk, faults, stored, p).Fail? ==> p in disk
    ensures NoteOf(AfterRun(t, w, disk, faults, stored, notes), v, p)
         == if v != w.vault then NoteOf(t, v, p)
            else if p in notes then
              if ChangeFor(w, disk, faults, stored, p).Fail? then NoteOf(t, v, p)
              else TableOf(Ideal(s, w.id, v, p, disk[p]))
            else if p in faults.deletes then NoteOf(t, v, p)
            else map[]
  {
    hide Ideal, TableOf, NoteOf, AfterRun, Fresh, Faithful, Grouped;
    NoteAfterRun(t, w, disk, faults, stored, notes, v, p);
    var c := ChangeFor(w, disk, faults, stored, p);
    if c.Skip? {
      SkipIsFresh(s, w, t, disk, faults, stored, p);
    } else if c.Write? {
      FreshIsIdeal(s, w, p, disk[p]);
    }
  }

  /** A pass keeps the store faithful. */
  lemma {:induction false} PassKeepsFaithful(s: Setting, w: EmbedWorker, t: Table, disk: Disk, faults: Faults,
                                             stored: map<string, string>, notes: seq<string>)
    requires Injective(s.reader) && Honest(s, w) && Faithful(s, w.id, t) && Grouped(t, w.vault, stored)
    ensures Faithful(s, w.id, AfterRun(t, w, disk, faults, stored, notes))
  {
    hide Ideal, TableOf, NoteOf, AfterRun, ChangeFor, Grouped;
    var t' := AfterRun(t, w, disk, faults, stored, notes);
    forall v, p | NoteOf(t', v, p) != map[]
      ensures FromContent(s, w.id, t', v, p)
    {
      PassRefreshes(s, w, t, disk, faults, stored, notes, v, p);
      if NoteOf(t', v, p) == NoteOf(t, v, p) {
        assert FromContent(s, w.id, t, v, p);
      }
    }
  }

  // ---------- Incremental equals rebuild ----------

  ghost predicate NoFailure(w: EmbedWorker, disk: Disk, faults: Faults, stored: map<string, string>, notes: seq<string>) {
    forall p :: p in notes ==> !ChangeFor(w, disk, faults, stored, p).Fail?
  }

  /** The delete of no vanished note is refused. */
  ghost predicate DeletesGoThrough(faults: Faults, stored: map<string, string>, notes: seq<string>) {
    forall p :: p in stored && p !in notes ==> p !in faults.deletes
  }

  lemma {:induction false} NotStoredIsEmpty(t: Table, v: string, stored: map<string, string>, p: string)
    requires Grouped(t, v, stored) && p !in stored
    ensures NoteOf(t, v, p) == map[]
  {
  }

  /** `after` holds in this vault exactly what `rebuilt` does, and in every other vault what `before` does. */
  ghost predicate SameVault(vault: string, before: Table, after: Table, rebuilt: Table) {
    && (forall p :: NoteOf(after, vault, p) == NoteOf(rebuilt, vault, p))
    && (forall v, p :: v != vault ==> NoteOf(after, v, p) == NoteOf(before, v, p))
  }

  /**
   A pass without failures over any faithful store leaves the vault exactly as a rebuild from an empty
   store does, and leaves every other vault alone.
   */
  lemma {:induction false} IncrementalEqualsRebuild(
      s: Setting, w: EmbedWorker, t: Table, disk: Disk, notes: seq<string>,
      faults: Faults, stored: map<string, string>, anew: Faults, none: map<string, string>)
    requires Injective(s.reader) && Honest(s, w) && Faithful(s, w.id, t)
    requires Grouped(t, w.vault, stored) && Grouped(map[], w.vault, none)
    requires NoFailure(w, disk, faults, stored, notes) && DeletesGoThrough(faults, stored, notes)
    requires NoFailure(w, disk, anew, none, notes)
    ensures SameVault(w.vault, t, AfterRun(t, w, disk, faults, stored, notes), AfterRun(map[], w, disk, anew, none, notes))
  {
    hide Ideal, TableOf, AfterRun, ChangeFor, Grouped;
    forall v, p
      ensures v == w.vault ==>
        NoteOf(AfterRun(t, w, disk, faults, stored, notes), v, p) == NoteOf(AfterRun(map[], w, disk, anew, none, notes), v, p)
      ensures v != w.vault ==> NoteOf(AfterRun(t, w, disk, faults, stored, notes), v, p) == NoteOf(t, v, p)
    {
      assert NoteOf(map[], v, p) == map[];
      PassRefreshes(s, w, t, disk, faults, stored, notes, v, p);
      PassRefreshes(s, w, map[], disk, anew, none, notes, v, p);
      if v == w.vault && p !in notes && p !in stored {
        NotStoredIsEmpty(t, v, stored, p);
      }
    }
  }

  lemma {:induction false} IdealNonEmptyStored(s: Setting, id: string, t: Table, v: string, p: string, bytes: Bytes,
                                               stored: map<string, string>)
    requires Grouped(t, v, stored) && NoteOf(t, v, p) == TableOf(Ideal(s, id, v, p, bytes))
    ensures p in stored ==> stored[p] == s.reader.hash(bytes)
    ensures p !in stored ==> TableOf(Ideal(s, id, v, p, bytes)) == map[]
  {
    hide Ideal, TableOf;
    if p in stored {
      assert HashOfSomeRow(t, v, p, stored[p]);
      var i :| Key(v, p, i) in t && t[Key(v, p, i)].contentHash == stored[p];
      assert Key(v, p, i) in NoteOf(t, v, p);
      IdealHash(s, id, v, p, bytes, Key(v, p, i));
    }
  }

  /**
   After a pass without failures, a second pass over the same disk changes no row, whatever its own
   embedder and database do, and it deletes nothing.
   */
  lemma {:induction false} SecondPassChangesNothing(
      s: Setting, w: EmbedWorker, w2: EmbedWorker, t: Table, disk: Disk, notes: seq<string>,
      faults: Faults, stored: map<string, string>, faults2: Faults, stored2: map<string, string>)
    requires Injective(s.reader) && Honest(s, w) && Honest(s, w2) && w2.id == w.id && w2.vault == w.vault
    requires Faithful(s, w.id, t) && Grouped(t, w.vault, stored)
    requires NoFailure(w, disk, faults, stored, notes) && DeletesGoThrough(faults, stored, notes)
    requires Grouped(AfterRun(t, w, disk, faults, stored, notes), w.vault, stored2)
    ensures var t' := AfterRun(t, w, disk, faults, stored, notes);
      && AfterRun(t', w2, disk, faults2, stored2, notes) == t'
      && Removed(faults2, stored2, notes) == {}
  {
    hide Ideal, TableOf, AfterRun, ChangeFor, NoteOf, Grouped, Faithful;
    var t' := AfterRun(t, w, disk, faults, stored, notes);
    PassKeepsFaithful(s, w, t, disk, faults, stored, notes);
    forall v, p
      ensures NoteOf(AfterRun(t', w2, disk, faults2, stored2, notes), v, p) == NoteOf(t', v, p)
      ensures v == w.vault && p !in notes ==> NoteOf(t', v, p) == map[]
    {
      PassRefreshes(s, w, t, disk, faults, stored, notes, v, p);
      PassRefreshes(s, w2, t', disk, faults2, stored2, notes, v, p);
      if p !in notes && p !in stored && v == w.vault {
        NotStoredIsEmpty(t, v, stored, p);
      }
    }
    TableByNotes(AfterRun(t', w2, disk, faults2, stored2, notes), t');
    forall p | p in stored2
      ensures p in notes
    {
      StoredIsNonEmpty(t', w.vault, stored2, p);
    }
  }

  lemma StoredIsNonEmpty(t: Table, v: string, stored: map<string, string>, p: string)
    requires Grouped(t, v, stored) && p in stored
    ensures NoteOf(t, v, p) != map[]
  {
  }

  /** In that second pass a note that has rows is skipped: nothing is embedded again. */
  lemma {:induction false} SecondPassSkips(
      s: Setting, w: EmbedWorker, t: Table, disk: Disk, faults: Faults, stored: map<string, string>, p: string)
    requires Honest(s, w) && Grouped(t, w.vault, stored) && p in disk
    requires NoteOf(t, w.vault, p) == TableOf(Ideal(s, w.id, w.vault, p, disk[p]))
    ensures NoteOf(t, w.vault, p) != map[] ==> ChangeFor(w, disk, faults, stored, p).Skip?
  {
    hide Ideal, TableOf, Fresh, NoteOf;
    IdealNonEmptyStored(s, w.id, t, w.vault, p, disk[p], stored);
  }

  // ---------- Histories ----------

  datatype Db = Db(meta: Meta, chunks: Table)

  /** Opening the database with some schema version, or a pass of some worker over some disk. */
  datatype Event =
    | Open(version: int)
    | Pass(w: EmbedWorker, walk: seq<Entry>, disk: Disk, faults: Faults)

  const EMPTY := Db(Meta(None, None, None), map[])

  function AfterOpen(db: Db, version: int): Db {
    Db(Opened(db.meta, version), if db.meta.schemaVersion == Some(version) then db.chunks else map[])
  }

  function AfterOpens(db: Db, versions: seq<int>): Db {
    if versions == [] then db
    else AfterOpen(AfterOpens(db, versions[..|versions| - 1]), versions[|versions| - 1])
  }

  /**
   Opens lose the chunks and the identity exactly when one of them is of a version other than the stored one;
   however many there are of the stored version, nothing changes.
   */
  lemma {:induction false} OpensKeepOrLose(db: Db, versions: seq<int>)
    requires versions != []
    ensures AfterOpens(db, versions)
         == if forall v :: v in versions ==> db.meta.schemaVersion == Some(v) then db
            else Db(Meta(Some(versions[|versions| - 1]), None, None), map[])
  {
    var n := |versions| - 1;
    var earlier := versions[..n];
    assert versions == earlier + [versions[n]];
    if earlier != [] {
      OpensKeepOrLose(db, earlier);
      assert earlier[n - 1] in versions;
    }
  }

  ghost predicate Stepped(s: Setting, db: Db, e: Event, db': Db) {
    match e
    case Open(version) => db' == AfterOpen(db, version)
    case Pass(w, walk, disk, faults) =>
      && Honest(s, w)
      && db'.meta == Stamped(db.meta, w.id, w.dim).1
      && if Stamped(db.meta, w.id, w.dim).0.Err? then db'.chunks == db.chunks
         else exists stored :: Grouped(db.chunks, w.vault, stored)
                            && db'.chunks == AfterRun(db.chunks, w, disk, faults, stored, NotesOf(walk))
  }

  /** The operations of the store and the worker take exactly these steps. */
  method Perform(store: EmbeddingStore, ghost s: Setting, e: Event)
    requires e.Pass? ==> Honest(s, e.w)
    modifies store
    ensures Stepped(s, Db(old(store.meta), old(store.chunks)), e, Db(store.meta, store.chunks))
  {
    hide AfterRun, Grouped;
    match e {
      case Open(version) =>
        store.EnsureSchema(version);
      case Pass(w, walk, disk, faults) =>
        var r, stored := Run(store, w, walk, disk, faults);
        assert r.Ok? ==> Grouped(old(store.chunks), w.vault, stored);
    }
  }

  /** `db` is where the events lead from a new database. */
  ghost predicate Reached(s: Setting, es: seq<Event>, db: Db) {
    if es == [] then db == EMPTY
    else
      var earlier, last := es[..|es| - 1], es[|es| - 1];
      exists before :: Reached(s, earlier, before) && Stepped(s, before, last, db)
  }

  /** Every stored row was produced by the embedder named in `_meta`. */
  ghost predicate Identified(s: Setting, db: Db) {
    if db.meta.embedderId.None? then db.chunks == map[]
    else Faithful(s, db.meta.embedderId.value, db.chunks)
  }

  lemma {:induction false} EmptyIsFaithful(s: Setting, id: string)
    ensures Faithful(s, id, map[])
  {
    forall v, p
      ensures NoteOf(map[], v, p) == map[]
    {
    }
  }

  lemma {:induction false} StepIdentified(s: Setting, db: Db, e: Event, db': Db)
    requires Injective(s.reader) && Identified(s, db) && Stepped(s, db, e, db')
    ensures Identified(s, db')
  {
    hide Faithful, AfterRun, Grouped;
    match e {
      case Open(version) =>
        if db'.meta.embedderId.Some? { EmptyIsFaithful(s, db'.meta.embedderId.value); }
      case Pass(w, walk, disk, faults) =>
        EmptyIsFaithful(s, w.id);
        if Stamped(db.meta, w.id, w.dim).0.Ok? {
          var stored :| Grouped(db.chunks, w.vault, stored)
                     && db'.chunks == AfterRun(db.chunks, w, disk, faults, stored, NotesOf(walk));
          PassKeepsFaithful(s, w, db.chunks, disk, faults, stored, NotesOf(walk));
        }
    }
  }

  /** Store identity, over every sequence of opens (schema bumps included) and passes. */
  lemma {:induction false} ReachedIdentified(s: Setting, es: seq<Event>, db: Db)
    requires Injective(s.reader) && Reached(s, es, db)
    ensures Identified(s, db)
    decreases |es|
  {
    if es != [] {
      var before :| Reached(s, es[..|es| - 1], before) && Stepped(s, before, es[|es| - 1], db);
      ReachedIdentified(s, es[..|es| - 1], before);
      StepIdentified(s, before, es[|es| - 1], db);
    }
  }

  /** In every reached store all rows of one note carry one content hash. */
  lemma {:induction false} ReachedOneHash(s: Setting, es: seq<Event>, db: Db, j: Key, k: Key)
    requires Injective(s.reader) && Reached(s, es, db)
    requires j in db.chunks && k in db.chunks && j.vaultName == k.vaultName && j.path == k.path
    ensures db.meta.embedderId.Some? && db.chunks[j].contentHash == db.chunks[k].contentHash
  {
    hide Faithful, Reached;
    ReachedIdentified(s, es, db);
    OneHashPerNote(s, db.meta.embedderId.value, db.chunks, j, k);
  }

  /** Every reached store's rows are stored under their own columns, so it can be searched. */
  lemma {:induction false} ReachedWellKeyed(s: Setting, es: seq<Event>, db: Db)
    requires Injective(s.reader) && Reached(s, es, db)
    ensures WellKeyed(db.chunks)
  {
    hide Reached, Ideal, TableOf;
    ReachedIdentified(s, es, db);
    forall k | k in db.chunks
      ensures KeyOf(db.chunks[k]) == k
    {
      var id, v, p := db.meta.embedderId.value, k.vaultName, k.path;
      assert k in NoteOf(db.chunks, v, p);
      assert FromContent(s, id, db.chunks, v, p);
      var bytes :| NoteOf(db.chunks, v, p) == TableOf(Ideal(s, id, v, p, bytes));
      TableOfIndexed(Ideal(s, id, v, p, bytes), v, p);
    }
  }

  /** A worker whose identity a reached store accepts finds a store faithful to its own embedder. */
  lemma {:induction false} ReachedFaithful(s: Setting, es: seq<Event>, db: Db, w: EmbedWorker)
    requires Injective(s.reader) && Reached(s, es, db) && Stamped(db.meta, w.id, w.dim).0.Ok?
    ensures Faithful(s, w.id, db.chunks)
  {
    hide Faithful, Reached;
    ReachedIdentified(s, es, db);
    EmptyIsFaithful(s, w.id);
  }

  /**
   From every reached store, a pass leaves each walked note with the fresh embedding of its bytes, or as it
   was if the note failed; notes not walked hold nothing unless their delete was refused; other vaults are untouched.
   */
  lemma {:induction false} ReachedPassRefreshes(
      s: Setting, es: seq<Event>, db: Db, w: EmbedWorker, disk: Disk, notes: seq<string>,
      faults: Faults, stored: map<string, string>, v: string, p: string)
    requires Injective(s.reader) && Honest(s, w) && Reached(s, es, db)
    requires Stamped(db.meta, w.id, w.dim).0.Ok? && Grouped(db.chunks, w.vault, stored)
    ensures var failed := ChangeFor(w, disk, faults, stored, p).Fail?;
      && (!failed ==> p in disk)
      && NoteOf(AfterRun(db.chunks, w, disk, faults, stored, notes), v, p)
         == if v != w.vault || (p in notes && failed) || (p !in notes && p in faults.deletes) then NoteOf(db.chunks, v, p)
            else if p in notes then TableOf(Ideal(s, w.id, v, p, disk[p]))
            else map[]
  {
    hide *;
    ReachedFaithful(s, es, db, w);
    PassRefreshes(s, w, db.chunks, disk, faults, stored, notes, v, p);
  }

  /**
   A stored note that is still on disk loses its rows exactly when the walk missed it and its delete goes
   through, or it was walked without failing and has no text to embed any more.
   */
  lemma {:induction false} StoredNoteIsLost(
      s: Setting, es: seq<Event>, db: Db, w: EmbedWorker, walk: seq<Entry>, disk: Disk,
      faults: Faults, stored: map<string, string>, p: string)
    requires Injective(s.reader) && Honest(s, w) && Reached(s, es, db)
    requires Stamped(db.meta, w.id, w.dim).0.Ok? && Grouped(db.chunks, w.vault, stored)
    requires p in disk && NoteOf(db.chunks, w.vault, p) != map[]
    ensures NoteOf(AfterRun(db.chunks, w, disk, faults, stored, NotesOf(walk)), w.vault, p) == map[] <==>
      if p !in NotesOf(walk) then p !in faults.deletes
      else !ChangeFor(w, disk, faults, stored, p).Fail? && Ideal(s, w.id, w.vault, p, disk[p]) == []
  {
    hide *;
    ReachedPassRefreshes(s, es, db, w, disk, NotesOf(walk), faults, stored, w.vault, p);
    IdealRows(s, w.id, w.vault, p, disk[p]);
  }

  lemma {:induction false} IdealRows(s: Setting, id: string, v: string, p: string, bytes: Bytes)
    ensures TableOf(Ideal(s, id, v, p, bytes)) == map[] <==> Ideal(s, id, v, p, bytes) == []
  {
    hide Ideal, TableOf;
    var cs := Ideal(s, id, v, p, bytes);
    TableOfIndexed(cs, v, p);
    if cs != [] { assert Key(v, p, 0) in TableOf(cs); }
  }

  lemma {:induction false} NotesOfParts(before: seq<Entry>, after: seq<Entry>)
    ensures NotesOf(before + after) == NotesOf(before) + NotesOf(after)
  {
    hide IsNote, RelativePath;
    if after == [] {
      assert before + after == before;
    } else {
      var n := |after| - 1;
      assert (before + after)[..|before| + n] == before + after[..n];
      NotesOfParts(before, after[..n]);
    }
  }

  /** A directory that cannot be read costs every note below it its rows, though the notes are still on disk. */
  lemma {:induction false} UnreadableLosesNote(
      s: Setting, es: seq<Event>, db: Db, w: EmbedWorker, before: seq<Entry>, after: seq<Entry>, disk: Disk,
      faults: Faults, stored: map<string, string>, p: string)
    requires Injective(s.reader) && Honest(s, w) && Reached(s, es, db)
    requires Stamped(db.meta, w.id, w.dim).0.Ok? && Grouped(db.chunks, w.vault, stored)
    requires p in disk && p !in NotesOf(before) && p !in NotesOf(after) && p !in faults.deletes
    ensures NoteOf(AfterRun(db.chunks, w, disk, faults, stored, NotesOf(before + [Unreadable] + after)), w.vault, p) == map[]
  {
    hide *;
    NotesOfParts(before + [Unreadable], after);
    NotesOfParts(before, [Unreadable]);
    assert NotesOf([Unreadable]) == [] by { UnreadableIsNoNote(); }
    ReachedPassRefreshes(s, es, db, w, disk, NotesOf(before + [Unreadable] + after), faults, stored, w.vault, p);
  }

  lemma UnreadableIsNoNote()
    ensures NotesOf([Unreadable]) == []
  {
  }

  /** The rebuild theorem for every reached store: whatever came before, a clean pass equals a rebuild. */
  lemma {:induction false} ReachedPassEqualsRebuild(
      s: Setting, es: seq<Event>, db: Db, w: EmbedWorker, disk: Disk, notes: seq<string>,
      faults: Faults, stored: map<string, string>, anew: Faults)
    requires Injective(s.reader) && Honest(s, w) && Reached(s, es, db)
    requires Stamped(db.meta, w.id, w.dim).0.Ok? && Grouped(db.chunks, w.vault, stored)
    requires NoFailure(w, disk, faults, stored, notes) && DeletesGoThrough(faults, stored, notes)
    requires NoFailure(w, disk, anew, map[], notes)
    ensures SameVault(w.vault, db.chunks, AfterRun(db.chunks, w, disk, faults, stored, notes),
                      AfterRun(map[], w, disk, anew, map[], notes))
  {
    hide Faithful, AfterRun, Reached, NoFailure, DeletesGoThrough;
    ReachedFaithful(s, es, db, w);
    assert Grouped(map[], w.vault, map[]) by { EmptyIsGrouped(w.vault); }
    IncrementalEqualsRebuild(s, w, db.chunks, disk, notes, faults, stored, anew, map[]);
  }

  lemma EmptyIsGrouped(v: string)
    ensures Grouped(map[], v, map[])
  {
  }
}
