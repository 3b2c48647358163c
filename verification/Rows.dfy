/** The chunk table as a map of rows keyed by (vault, path, chunk id), and its per-note contents. */
module Rows {
  import opened Text

  type Vector = seq<real>

  datatype Chunk = Chunk(
    vaultName: string, path: string, chunkId: nat,
    charStart: nat, charEnd: nat, contentHash: string, vector: Vector)

  datatype Key = Key(vaultName: string, path: string, chunkId: nat)

  type Table = map<Key, Chunk>

  function KeyOf(c: Chunk): Key { Key(c.vaultName, c.path, c.chunkId) }

  /** The rows of one note. */
  function NoteOf(t: Table, vault: string, path: string): Table {
    map k | k in t && k.vaultName == vault && k.path == path :: t[k]
  }

  function WithoutNote(t: Table, vault: string, path: string): Table {
    map k | k in t && !(k.vaultName == vault && k.path == path) :: t[k]
  }

  /** `INSERT OR REPLACE` of each chunk in turn. */
  function Inserted(t: Table, cs: seq<Chunk>): Table {
    if cs == [] then t else Inserted(t, cs[..|cs| - 1])[KeyOf(cs[|cs| - 1]) := cs[|cs| - 1]]
  }

  /** The table holding just these chunks. */
  function TableOf(cs: seq<Chunk>): Table { Inserted(map[], cs) }

  function Replaced(t: Table, vault: string, path: string, cs: seq<Chunk>): Table {
    Inserted(WithoutNote(t, vault, path), cs)
  }

  ghost predicate AllOf(cs: seq<Chunk>, vault: string, path: string) {
    forall i :: 0 <= i < |cs| ==> cs[i].vaultName == vault && cs[i].path == path
  }

  /** Inserting a note's chunks shows in that note alone. */
  lemma {:induction false} NoteOfInserted(t: Table, cs: seq<Chunk>, v: string, p: string, vault: string, path: string)
    requires AllOf(cs, vault, path) && NoteOf(t, vault, path) == map[]
    ensures NoteOf(Inserted(t, cs), v, p) == if v == vault && p == path then TableOf(cs) else NoteOf(t, v, p)
  {
    if cs != [] {
      NoteOfInserted(t, cs[..|cs| - 1], v, p, vault, path);
    }
  }

  /** Replacing a note's chunks leaves exactly those chunks in it and every other note as it was. */
  lemma {:induction false} NoteOfReplaced(t: Table, cs: seq<Chunk>, v: string, p: string, vault: string, path: string)
    requires AllOf(cs, vault, path)
    ensures NoteOf(Replaced(t, vault, path, cs), v, p)
         == if v == vault && p == path then TableOf(cs) else NoteOf(t, v, p)
  {
    var rest := WithoutNote(t, vault, path);
    assert NoteOf(rest, vault, path) == map[];
    NoteOfInserted(rest, cs, v, p, vault, path);
    if !(v == vault && p == path) {
      assert NoteOf(rest, v, p) == NoteOf(t, v, p);
    }
  }

  /** The table's keys are its rows' own columns. */
  ghost predicate WellKeyed(t: Table) {
    forall k :: k in t ==> KeyOf(t[k]) == k
  }

  /** A table is the union of its notes. */
  lemma TableByNotes(s: Table, t: Table)
    requires forall v, p :: NoteOf(s, v, p) == NoteOf(t, v, p)
    ensures s == t
  {
    forall k
      ensures k in s <==> k in t
      ensures k in s ==> s[k] == t[k]
    {
      assert NoteOf(s, k.vaultName, k.path) == NoteOf(t, k.vaultName, k.path);
      assert k in s <==> k in NoteOf(s, k.vaultName, k.path);
      assert k in t <==> k in NoteOf(t, k.vaultName, k.path);
    }
  }

  /** The chunks of a list with consecutive ids are all kept: chunk i is at id i. */
  lemma {:induction false} TableOfIndexed(cs: seq<Chunk>, vault: string, path: string)
    requires AllOf(cs, vault, path)
    requires forall i :: 0 <= i < |cs| ==> cs[i].chunkId == i
    ensures forall k :: k in TableOf(cs) <==> k.vaultName == vault && k.path == path && k.chunkId < |cs|
    ensures forall k :: k in TableOf(cs) ==> k.chunkId < |cs| && TableOf(cs)[k] == cs[k.chunkId]
  {
    if cs != [] {
      TableOfIndexed(cs[..|cs| - 1], vault, path);
    }
  }
}
