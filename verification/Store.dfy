/** `embeddings.db`: the chunk table and the `_meta` identity, behind the operations of the store. */
module Store {
  import opened Text
  import opened Rows

  datatype EmbedError =
    | Sqlite
    | Io
    | EmbedderMismatch(expected: string, found: string)
    | DimMismatch(expectedDim: nat, foundDim: nat)
    | Embed(reason: string)

  /** The identity stamped in `_meta`. */
  datatype Meta = Meta(schemaVersion: Option<int>, embedderId: Option<string>, dim: Option<nat>)

  /** One of the hashes a note's rows carry: what `GROUP BY path` may return for the note. */
  ghost predicate HashOfSomeRow(t: Table, vault: string, path: string, hash: string) {
    exists id :: Key(vault, path, id) in t && t[Key(vault, path, id)].contentHash == hash
  }

  /** `m` is a possible answer to `SELECT path, content_hash ... GROUP BY path`. */
  ghost predicate Grouped(t: Table, vault: string, m: map<string, string>) {
    && (forall p :: p in m <==> NoteOf(t, vault, p) != map[])
    && (forall p :: p in m ==> HashOfSomeRow(t, vault, p, m[p]))
  }

  /** What opening the database with a given schema version does to the identity. */
  function Opened(m: Meta, version: int): Meta {
    if m.schemaVersion == Some(version) then m else Meta(Some(version), None, None)
  }

  /** What `ensure_embedder` answers, and the identity it leaves. */
  function Stamped(m: Meta, id: string, dim: nat): (Result<(), EmbedError>, Meta) {
    match m.embedderId
    case None => (Ok(()), m.(embedderId := Some(id), dim := Some(dim)))
    case Some(found) =>
      if found != id then (Err(EmbedderMismatch(id, found)), m)
      else if m.dim == None then (Ok(()), m.(dim := Some(dim)))
      else if m.dim.value != dim then (Err(DimMismatch(dim, m.dim.value)), m)
      else (Ok(()), m)
  }

  /** A worker is let in exactly when no embedder was stamped, or its own was, with its dimension or none; then both are stamped. */
  lemma StampDecided(m: Meta, id: string, dim: nat)
    ensures var (r, after) := Stamped(m, id, dim);
      && (r.Ok? <==> m.embedderId == None || (m.embedderId == Some(id) && (m.dim == None || m.dim == Some(dim))))
      && (r.Ok? ==> after == Meta(m.schemaVersion, Some(id), Some(dim)))
      && (r.Err? ==> after == m)
      && (r.Err? && m.embedderId != Some(id) ==> exists found :: m.embedderId == Some(found) && r.error == EmbedderMismatch(id, found))
      && (r.Err? && m.embedderId == Some(id) ==> exists found :: m.dim == Some(found) && r.error == DimMismatch(dim, found))
  {
  }

  class EmbeddingStore {
    var chunks: Table
    var meta: Meta

    constructor ()
      ensures chunks == map[] && meta == Meta(None, None, None)
    {
      chunks := map[];
      meta := Meta(None, None, None);
    }

    /** Open the database: a schema version other than the stored one drops the chunks and the identity. */
    method EnsureSchema(version: int)
      modifies this
      ensures meta == Opened(old(meta), version)
      ensures chunks == if old(meta).schemaVersion == Some(version) then old(chunks) else map[]
    {
      var current := meta.schemaVersion;
      if current != Some(version) {
        chunks := map[];
        meta := meta.(embedderId := None, dim := None);
      }
      meta := meta.(schemaVersion := Some(version));
    }

    /** Stamp the identity, or check that the stamp already there matches. */
    method EnsureEmbedder(id: string, dim: nat) returns (r: Result<(), EmbedError>)
      modifies this`meta
      ensures (r, meta) == Stamped(old(meta), id, dim)
    {
      if meta.embedderId == None {
        meta := meta.(embedderId := Some(id));
        meta := meta.(dim := Some(dim));
        return Ok(());
      }
      var found := meta.embedderId.value;
      if found != id {
        return Err(EmbedderMismatch(id, found));
      }
      if meta.dim == None {
        meta := meta.(dim := Some(dim));
        return Ok(());
      }
      if meta.dim.value != dim {
        return Err(DimMismatch(dim, meta.dim.value));
      }
      return Ok(());
    }

    /** The stored hash of each note; for a note whose rows differ, the hash of any one of them. */
    method StoredHashes(vault: string) returns (m: map<string, string>)
      ensures Grouped(chunks, vault, m)
    {
      m := map[];
      var rest := chunks.Keys;
      ghost var done: set<Key> := {};
      while rest != {}
        invariant rest + done == chunks.Keys && rest !! done
        invariant forall p :: p in m ==> HashOfSomeRow(chunks, vault, p, m[p])
        invariant forall k :: k in done && k.vaultName == vault ==> k.path in m
        decreases rest
      {
        var k :| k in rest;
        if k.vaultName == vault {
          assert Key(vault, k.path, k.chunkId) == k;
          m := m[k.path := chunks[k].contentHash];
        }
        rest, done := rest - {k}, done + {k};
      }
      forall p
        ensures p in m <==> NoteOf(chunks, vault, p) != map[]
      {
        if p in m {
          var id :| Key(vault, p, id) in chunks && chunks[Key(vault, p, id)].contentHash == m[p];
          assert Key(vault, p, id) in NoteOf(chunks, vault, p);
        }
        if NoteOf(chunks, vault, p) != map[] {
          var k :| k in NoteOf(chunks, vault, p);
          assert k in done;
        }
      }
    }

    /** One transaction: all of the note's chunks are replaced, or (when the database fails) none. */
    method ReplaceNoteChunks(vault: string, path: string, cs: seq<Chunk>, accepts: bool)
      returns (r: Result<(), EmbedError>)
      modifies this`chunks
      ensures r.Ok? <==> accepts
      ensures chunks == if accepts then Replaced(old(chunks), vault, path, cs) else old(chunks)
    {
      var tx := WithoutNote(chunks, vault, path);
      for i := 0 to |cs|
        invariant tx == Inserted(WithoutNote(chunks, vault, path), cs[..i])
      {
        assert cs[..i + 1][..i] == cs[..i];
        tx := tx[KeyOf(cs[i]) := cs[i]];
      }
      assert cs[..|cs|] == cs;
      if !accepts {
        return Err(Sqlite);
      }
      chunks := tx;
      return Ok(());
    }

    method DeleteNote(vault: string, path: string, accepts: bool) returns (r: Result<(), EmbedError>)
      modifies this`chunks
      ensures r.Ok? <==> accepts
      ensures chunks == if accepts then WithoutNote(old(chunks), vault, path) else old(chunks)
    {
      if !accepts {
        return Err(Sqlite);
      }
      chunks := WithoutNote(chunks, vault, path);
      return Ok(());
    }
  }
}
