/** Brute-force search: cosine distance over the stored vectors, a stable sort, and the nearest k. Floats are reals. */
module VectorSearch {
  import opened Text
  import opened Rows
  import opened Store
  import opened Sorting

  // ---------- Distance ----------

  function Dot(a: Vector, b: Vector): real
    requires |a| == |b|
  {
    if a == [] then 0.0 else a[0] * b[0] + Dot(a[1..], b[1..])
  }

  /** The dot product adds up the products of the components. */
  lemma {:induction false} DotPush(a: Vector, b: Vector, x: real, y: real)
    requires |a| == |b|
    ensures Dot(a + [x], b + [y]) == Dot(a, b) + x * y
  {
    if a == [] {
      assert [] + [x] == [x] && [] + [y] == [y] && [x][1..] == [] && [y][1..] == [];
    } else {
      assert (a + [x])[1..] == a[1..] + [x] && (b + [y])[1..] == b[1..] + [y];
      DotPush(a[1..], b[1..], x, y);
    }
  }

  /** `norm` takes the root of the sum of squares. */
  ghost predicate IsNorm(norm: Vector -> real) {
    forall v :: norm(v) >= 0.0 && norm(v) * norm(v) == Dot(v, v)
  }

  function CosineDistance(query: Vector, queryNorm: real, candidate: Vector, norm: Vector -> real): real {
    if |query| != |candidate| then 1.0
    else
      var candNorm := norm(candidate);
      if queryNorm == 0.0 || candNorm == 0.0 then 1.0
      else 1.0 - Dot(query, candidate) / (queryNorm * candNorm)
  }

  /** `x * a + y * b`, component by component. */
  function Combine(x: real, a: Vector, y: real, b: Vector): (c: Vector)
    requires |a| == |b|
    ensures |c| == |a|
  {
    if a == [] then [] else [x * a[0] + y * b[0]] + Combine(x, a[1..], y, b[1..])
  }

  lemma {:induction false} SquareOfCombination(x: real, a: Vector, y: real, b: Vector)
    requires |a| == |b|
    ensures var c := Combine(x, a, y, b);
      Dot(c, c) == x * x * Dot(a, a) + 2.0 * (x * y) * Dot(a, b) + y * y * Dot(b, b)
  {
    if a != [] {
      SquareOfCombination(x, a[1..], y, b[1..]);
      var c := Combine(x, a, y, b);
      var (h, k) := (a[0], b[0]);
      assert c[1..] == Combine(x, a[1..], y, b[1..]);
      SquareOfSum(x * h, y * k);
      Distribute(x, y, h, k, Dot(a[1..], a[1..]), Dot(a[1..], b[1..]), Dot(b[1..], b[1..]));
    }
  }

  lemma SquareOfSum(p: real, q: real)
    ensures (p + q) * (p + q) == p * p + 2.0 * (p * q) + q * q
  {
  }

  lemma Distribute(x: real, y: real, h: real, k: real, aa: real, ab: real, bb: real)
    ensures (x * h) * (x * h) + 2.0 * ((x * h) * (y * k)) + (y * k) * (y * k)
          + (x * x * aa + 2.0 * (x * y) * ab + y * y * bb)
         == x * x * (h * h + aa) + 2.0 * (x * y) * (h * k + ab) + y * y * (k * k + bb)
  {
    assert (x * h) * (x * h) == x * x * (h * h);
    assert (y * k) * (y * k) == y * y * (k * k);
    assert (x * h) * (y * k) == (x * y) * (h * k);
  }

  lemma {:induction false} SquareNonNegative(v: Vector)
    ensures Dot(v, v) >= 0.0
  {
    if v != [] { SquareNonNegative(v[1..]); }
  }

  lemma PositiveFactor(p: real, x: real)
    requires p > 0.0 && p * x >= 0.0
    ensures x >= 0.0
  {
  }

  lemma {:induction false} OneSide(a: Vector, b: Vector, m: real, n: real)
    requires |a| == |b| && m * m == Dot(a, a) && n * n == Dot(b, b)
    ensures (m * n) * (m * n - Dot(a, b)) >= 0.0
  {
    hide Dot, Combine;
    var d := Dot(a, b);
    SquareOfCombination(n, a, -m, b);
    SquareNonNegative(Combine(n, a, -m, b));
    SquareExpanded(m, n, d);
  }

  lemma SquareExpanded(m: real, n: real, d: real)
    ensures n * n * (m * m) + 2.0 * (n * -m) * d + -m * -m * (n * n) == 2.0 * ((m * n) * (m * n - d))
  {
    assert n * n * (m * m) == (m * n) * (m * n);
    assert -m * -m * (n * n) == (m * n) * (m * n);
    assert 2.0 * (n * -m) * d == -2.0 * ((m * n) * d);
  }

  /** Cauchy-Schwarz, for vectors of norms m and n. */
  lemma {:induction false} CauchySchwarz(a: Vector, b: Vector, m: real, n: real)
    requires |a| == |b| && m > 0.0 && n > 0.0 && m * m == Dot(a, a) && n * n == Dot(b, b)
    ensures -(m * n) <= Dot(a, b) <= m * n
  {
    hide Dot, Combine;
    assert -m * -m == m * m;
    OneSide(a, b, m, n);
    OneSide(a, b, -m, n);
    assert m * n > 0.0;
    PositiveFactor(m * n, m * n - Dot(a, b));
    PositiveFactor(m * n, m * n + Dot(a, b));
  }

  /** Every distance is between 0 and 2. */
  lemma {:induction false} DistanceInRange(query: Vector, candidate: Vector, norm: Vector -> real)
    requires IsNorm(norm)
    ensures 0.0 <= CosineDistance(query, norm(query), candidate, norm) <= 2.0
  {
    hide Dot;
    var m, n := norm(query), norm(candidate);
    if |query| == |candidate| && m != 0.0 && n != 0.0 {
      CauchySchwarz(query, candidate, m, n);
      QuotientInRange(Dot(query, candidate), m * n);
    }
  }

  // ---------- What the distance of a mismatched vector ranks before ----------

  ghost predicate NonZero(v: Vector) {
    exists i :: 0 <= i < |v| && v[i] != 0.0
  }

  /** The norm is zero exactly for zero vectors. */
  lemma {:induction false} NormOfNonZero(v: Vector, norm: Vector -> real)
    requires IsNorm(norm)
    ensures norm(v) > 0.0 <==> NonZero(v)
  {
    hide Dot;
    PositiveDot(v);
    if norm(v) > 0.0 { RootSign(norm(v), Dot(v, v)); }
  }

  lemma PositiveProduct(x: real, y: real)
    requires x > 0.0 && y > 0.0
    ensures x * y > 0.0
  {
  }

  lemma RootSign(n: real, d: real)
    requires n > 0.0 && n * n == d
    ensures d > 0.0
  {
    var q := d / n;
    assert q * n == d;
    assert (q - n) * n == 0.0;
    assert q == n;
  }

  lemma SumSign(x: real, r: real)
    requires r >= 0.0
    ensures x * x + r > 0.0 <==> x != 0.0 || r > 0.0
  {
    if x > 0.0 { RootSign(x, x * x); }
    if x < 0.0 {
      assert -x * -x == x * x;
      RootSign(-x, x * x);
    }
  }

  lemma {:induction false} PositiveDot(v: Vector)
    ensures Dot(v, v) > 0.0 <==> NonZero(v)
  {
    if v != [] {
      SquareNonNegative(v[1..]);
      PositiveDot(v[1..]);
      SumSign(v[0], Dot(v[1..], v[1..]));
      if NonZero(v) && v[0] == 0.0 {
        var i :| 0 <= i < |v| && v[i] != 0.0;
        assert v[1..][i - 1] == v[i];
      }
      if NonZero(v[1..]) {
        var i :| 0 <= i < |v| - 1 && v[1..][i] != 0.0;
        assert v[i + 1] != 0.0;
      }
    }
  }

  /** The vectors whose distance is computed from their dot product; all others are given the distance 1. */
  ghost predicate Comparable(a: Vector, b: Vector) {
    |a| == |b| && NonZero(a) && NonZero(b)
  }

  /** The distance 1 is not the greatest: an opposite vector is at distance 2. */
  lemma {:induction false} OppositeDistance(v: Vector, norm: Vector -> real)
    requires IsNorm(norm) && NonZero(v)
    ensures CosineDistance(v, norm(v), Combine(-1.0, v, 0.0, v), norm) == 2.0
  {
    hide Dot, Combine, NonZero;
    var w := Combine(-1.0, v, 0.0, v);
    NormOfNonZero(v, norm);
    SquareOfCombination(-1.0, v, 0.0, v);
    DotOpposite(v, v);
    OppositeAngle(Dot(v, w), norm(v), norm(w));
  }

  lemma {:induction false} DotOpposite(a: Vector, b: Vector)
    requires |a| == |b|
    ensures Dot(a, Combine(-1.0, b, 0.0, b)) == -Dot(a, b)
  {
    if a != [] {
      assert Combine(-1.0, b, 0.0, b)[1..] == Combine(-1.0, b[1..], 0.0, b[1..]);
      DotOpposite(a[1..], b[1..]);
    }
  }

  lemma SameRoot(x: real, y: real)
    requires x > 0.0 && y >= 0.0 && x * x == y * y
    ensures x == y
  {
    var d := x - y;
    assert d * (x + y) == 0.0;
    if d != 0.0 { NonZeroProduct(d, x + y); }
  }

  lemma NonZeroProduct(x: real, y: real)
    requires x != 0.0 && y != 0.0
    ensures x * y != 0.0
  {
  }

  lemma OppositeAngle(d: real, m: real, n: real)
    requires m > 0.0 && n >= 0.0 && n * n == m * m && d == -(m * m)
    ensures n != 0.0 && m * n > 0.0 && 1.0 - d / (m * n) == 2.0
  {
    SameRoot(m, n);
    PositiveProduct(m, n);
    var q := d / (m * n);
    assert q * (m * n) == d;
    assert (q + 1.0) * (m * n) == 0.0;
    if q + 1.0 != 0.0 { NonZeroProduct(q + 1.0, m * n); }
  }

  /** A vector with no comparison to the query is at distance 1; a comparable one is beyond that exactly on the far side. */
  lemma {:induction false} SidesOfOne(query: Vector, v: Vector, norm: Vector -> real)
    requires IsNorm(norm)
    ensures var d := CosineDistance(query, norm(query), v, norm);
      && (!Comparable(query, v) ==> d == 1.0)
      && (Comparable(query, v) ==> (d > 1.0 <==> Dot(query, v) < 0.0) && (d == 1.0 <==> Dot(query, v) == 0.0))
  {
    hide Dot, NonZero;
    NormOfNonZero(query, norm);
    NormOfNonZero(v, norm);
    if Comparable(query, v) {
      QuotientSign(Dot(query, v), norm(query) * norm(v));
    }
  }

  lemma QuotientSign(d: real, p: real)
    requires p > 0.0
    ensures (d / p < 0.0 <==> d < 0.0) && (d / p == 0.0 <==> d == 0.0)
  {
    var q := d / p;
    assert q * p == d;
  }

  lemma QuotientInRange(d: real, p: real)
    requires p > 0.0 && -p <= d <= p
    ensures -1.0 <= d / p <= 1.0
  {
    var q := d / p;
    assert q * p == d;
    assert p * (1.0 - q) == p - d && p * (1.0 + q) == p + d;
    PositiveFactor(p, 1.0 - q);
    PositiveFactor(p, 1.0 + q);
  }

  // ---------- The angle ----------

  /** For comparable vectors one minus the distance is the cosine of their angle. */
  lemma {:induction false} DistanceIsCosine(query: Vector, v: Vector, norm: Vector -> real)
    requires IsNorm(norm) && Comparable(query, v)
    ensures norm(query) > 0.0 && norm(v) > 0.0
    ensures (1.0 - CosineDistance(query, norm(query), v, norm)) * (norm(query) * norm(v)) == Dot(query, v)
  {
    hide Dot, NonZero;
    NormOfNonZero(query, norm);
    NormOfNonZero(v, norm);
    PositiveProduct(norm(query), norm(v));
    QuotientTimes(Dot(query, v), norm(query) * norm(v));
  }

  lemma QuotientTimes(d: real, p: real)
    requires p > 0.0
    ensures (1.0 - (1.0 - d / p)) * p == d
  {
  }

  /** Of two comparable vectors the one with the larger cosine is strictly nearer, and no other. */
  lemma {:induction false} NearerByCosine(query: Vector, v: Vector, w: Vector, norm: Vector -> real)
    requires IsNorm(norm) && Comparable(query, v) && Comparable(query, w)
    ensures CosineDistance(query, norm(query), v, norm) < CosineDistance(query, norm(query), w, norm)
       <==> Dot(query, v) * norm(w) > Dot(query, w) * norm(v)
  {
    hide Dot, NonZero, CosineDistance;
    var q, m, n := norm(query), norm(v), norm(w);
    var x := 1.0 - CosineDistance(query, q, v, norm);
    var y := 1.0 - CosineDistance(query, q, w, norm);
    DistanceIsCosine(query, v, norm);
    DistanceIsCosine(query, w, norm);
    assert Dot(query, v) * n == x * (q * m * n) by { Rearranged(x, q, m, n, Dot(query, v)); }
    assert Dot(query, w) * m == y * (q * m * n) by { Rearranged(y, q, n, m, Dot(query, w)); assert q * n * m == q * m * n; }
    PositiveProduct(q, m);
    PositiveProduct(q * m, n);
    OrderOfProducts(x, y, q * m * n);
  }

  lemma Rearranged(x: real, q: real, m: real, n: real, d: real)
    requires x * (q * m) == d
    ensures d * n == x * (q * m * n)
  {
  }

  lemma OrderOfProducts(x: real, y: real, p: real)
    requires p > 0.0
    ensures x * p > y * p <==> x > y
  {
    if x > y { PositiveProduct(x - y, p); }
    if y > x { PositiveProduct(y - x, p); }
  }

  // ---------- Load order ----------

  /** The order of SQLite's BINARY collation: by code point, a prefix first. */
  predicate StrLess(a: string, b: string) {
    b != [] && (a == [] || a[0] < b[0] || (a[0] == b[0] && StrLess(a[1..], b[1..])))
  }

  lemma {:induction false} StrLessTransitive(a: string, b: string, c: string)
    requires StrLess(a, b) && StrLess(b, c)
    ensures StrLess(a, c) && a != b
  {
    if a != [] && a[0] == b[0] && b[0] == c[0] {
      StrLessTransitive(a[1..], b[1..], c[1..]);
    }
    StrLessIrreflexive(b);
  }

  lemma {:induction false} StrLessIrreflexive(a: string)
    ensures !StrLess(a, a)
  {
    if a != [] { StrLessIrreflexive(a[1..]); }
  }

  lemma {:induction false} StrLessTotal(a: string, b: string)
    ensures a == b || StrLess(a, b) || StrLess(b, a)
  {
    if a != [] && b != [] && a[0] == b[0] {
      StrLessTotal(a[1..], b[1..]);
      assert a == [a[0]] + a[1..] && b == [b[0]] + b[1..];
    }
  }

  /** A prefix comes first; else the first place where they differ decides. */
  lemma {:induction false} StrLessMeans(a: string, c: char, x: string, d: char, y: string)
    ensures StrLess(a, a + ([c] + x)) && !StrLess(a + ([c] + x), a)
    ensures c != d ==> (StrLess(a + ([c] + x), a + ([d] + y)) <==> c < d)
  {
    if a == [] {
      assert [] + ([c] + x) == [c] + x && [] + ([d] + y) == [d] + y;
    } else {
      assert (a + ([c] + x))[1..] == a[1..] + ([c] + x) && (a + ([d] + y))[1..] == a[1..] + ([d] + y);
      StrLessMeans(a[1..], c, x, d, y);
    }
  }

  /** `ORDER BY path, chunk_id`. */
  predicate KeyLess(j: Key, k: Key) {
    StrLess(j.path, k.path) || (j.path == k.path && j.chunkId < k.chunkId)
  }

  lemma {:induction false} KeyLessTransitive(i: Key, j: Key, k: Key)
    requires KeyLess(i, j) && KeyLess(j, k)
    ensures KeyLess(i, k)
  {
    if StrLess(i.path, j.path) && StrLess(j.path, k.path) {
      StrLessTransitive(i.path, j.path, k.path);
    }
  }

  ghost predicate InKeyOrder(ks: seq<Key>) {
    forall i, j :: 0 <= i < j < |ks| ==> KeyLess(ks[i], ks[j])
  }

  lemma {:induction false} InsertKeyOrder(k: Key, ks: seq<Key>)
    requires InKeyOrder(ks) && (forall i :: 0 <= i < |ks| ==> ks[i].vaultName == k.vaultName) && k !in ks
    ensures InKeyOrder(Insert(k, ks, KeyLess))
    ensures forall j :: j in Insert(k, ks, KeyLess) <==> j == k || j in ks
  {
    hide StrLess;
    forall y | y in ks
      ensures KeyLess(k, y) || KeyLess(y, k)
    {
      StrLessTotal(k.path, y.path);
    }
    forall y, z | y in ks && z in ks && KeyLess(k, y) && KeyLess(y, z)
      ensures KeyLess(k, z)
    {
      KeyLessTransitive(k, y, z);
    }
    hide KeyLess;
    assert Ordered(ks, KeyLess);
    InsertOrdered(k, ks, KeyLess, KeyLess);
    forall j
      ensures j in Insert(k, ks, KeyLess) <==> j == k || j in ks
    {
      InsertMember(k, ks, KeyLess, j);
    }
  }

  /** The rows of a vault in load order. */
  ghost predicate Loaded(t: Table, vault: string, ks: seq<Key>) {
    InKeyOrder(ks) && forall k :: k in ks <==> k in t && k.vaultName == vault
  }

  /** Loaded rows come by path, and those of one note by chunk id, each of them once. */
  lemma LoadedInOrder(t: Table, vault: string, ks: seq<Key>, i: nat, j: nat)
    requires Loaded(t, vault, ks) && i < j < |ks|
    ensures StrLess(ks[i].path, ks[j].path) || (ks[i].path == ks[j].path && ks[i].chunkId < ks[j].chunkId)
  {
    assert KeyLess(ks[i], ks[j]);
  }

  /** `load_chunks`: every row of the vault, by path and chunk id. */
  method LoadChunks(store: EmbeddingStore, vault: string) returns (keys: seq<Key>, chunks: seq<Chunk>)
    ensures Loaded(store.chunks, vault, keys)
    ensures |chunks| == |keys| && forall i :: 0 <= i < |keys| ==> chunks[i] == store.chunks[keys[i]]
  {
    hide Insert, KeyLess;
    keys := [];
    var t := store.chunks;
    var rest := t.Keys;
    while rest != {}
      invariant rest <= t.Keys
      invariant InKeyOrder(keys)
      invariant forall k :: k in keys <==> k in t && k.vaultName == vault && k !in rest
      decreases rest
    {
      var k :| k in rest;
      rest := rest - {k};
      if k.vaultName == vault {
        InsertKeyOrder(k, keys);
        keys := Insert(k, keys, KeyLess);
      }
    }
    chunks := seq(|keys|, i requires 0 <= i < |keys| => t[keys[i]]);
  }

  // ---------- Ranking ----------

  datatype ChunkRef = ChunkRef(
    vaultName: string, path: string, chunkId: nat, charStart: nat, charEnd: nat, contentHash: string)

  datatype Filter = Filter(vaultName: string, allowedPaths: Option<set<string>>) {
    predicate Permits(path: string) {
      allowedPaths.Some? ==> path in allowedPaths.value
    }
  }

  datatype Scored = Scored(ref: ChunkRef, distance: real)

  function RefOf(c: Chunk): ChunkRef {
    ChunkRef(c.vaultName, c.path, c.chunkId, c.charStart, c.charEnd, c.contentHash)
  }

  /** A reference cites the chunk's note, place and content. */
  lemma RefCites(c: Chunk)
    ensures var r := RefOf(c);
      && r.vaultName == c.vaultName && r.path == c.path && r.chunkId == c.chunkId
      && r.charStart == c.charStart && r.charEnd == c.charEnd && r.contentHash == c.contentHash
  {
  }

  function RefKey(r: ChunkRef): Key { Key(r.vaultName, r.path, r.chunkId) }

  /** The permitted chunks with their distances, in load order. */
  function Candidates(cs: seq<Chunk>, query: Vector, filter: Filter, norm: Vector -> real): seq<Scored> {
    if cs == [] then []
    else
      var c := cs[|cs| - 1];
      var rest := Candidates(cs[..|cs| - 1], query, filter, norm);
      if filter.Permits(c.path) then rest + [Scored(RefOf(c), CosineDistance(query, norm(query), c.vector, norm))]
      else rest
  }

  predicate NoFarther(a: Scored, b: Scored) { a.distance <= b.distance }

  /** `sort_by` on distance: a stable sort. */
  function StableSort(s: seq<Scored>): (r: seq<Scored>)
    ensures multiset(r) == multiset(s)
  {
    Sort(s, NoFarther)
  }

  /** Nearer first; at equal distance by path, then by chunk id. */
  ghost predicate Before(a: Scored, b: Scored) {
    a.distance < b.distance || (a.distance == b.distance && KeyLess(RefKey(a.ref), RefKey(b.ref)))
  }

  ghost predicate Ranked(s: seq<Scored>) {
    forall i, j :: 0 <= i < j < |s| ==> Before(s[i], s[j])
  }

  ghost predicate ScoredInOrder(s: seq<Scored>) {
    forall i, j :: 0 <= i < j < |s| ==> KeyLess(RefKey(s[i].ref), RefKey(s[j].ref))
  }

  lemma {:induction false} BeforeTransitive(x: Scored, y: Scored, z: Scored)
    requires Before(x, y) && Before(y, z)
    ensures Before(x, z)
  {
    if x.distance == y.distance == z.distance {
      KeyLessTransitive(RefKey(x.ref), RefKey(y.ref), RefKey(z.ref));
    }
  }

  lemma SidesOfNearer(x: Scored, y: Scored)
    requires KeyLess(RefKey(x.ref), RefKey(y.ref))
    ensures if NoFarther(x, y) then Before(x, y) else Before(y, x)
  {
  }

  /** Sorting candidates in load order breaks ties by path and chunk id. */
  lemma {:induction false} SortRanked(s: seq<Scored>)
    requires ScoredInOrder(s)
    ensures Ranked(StableSort(s))
  {
    hide KeyLess, Before, NoFarther;
    if s != [] {
      var rest := StableSort(s[1..]);
      SortRanked(s[1..]);
      forall y | y in rest
        ensures if NoFarther(s[0], y) then Before(s[0], y) else Before(y, s[0])
      {
        SortMember(s[1..], NoFarther, y);
        SidesOfNearer(s[0], y);
      }
      forall y, z | y in rest && z in rest && Before(s[0], y) && Before(y, z)
        ensures Before(s[0], z)
      {
        BeforeTransitive(s[0], y, z);
      }
      assert Ordered(rest, Before);
      InsertOrdered(s[0], rest, NoFarther, Before);
    }
  }

  lemma {:induction false} CandidatesInOrder(ks: seq<Key>, cs: seq<Chunk>, query: Vector, filter: Filter, norm: Vector -> real)
    requires |cs| == |ks| && InKeyOrder(ks) && forall i :: 0 <= i < |cs| ==> KeyOf(cs[i]) == ks[i]
    ensures ScoredInOrder(Candidates(cs, query, filter, norm))
    ensures forall x :: x in Candidates(cs, query, filter, norm) ==> RefKey(x.ref) in ks
  {
    hide KeyLess, CosineDistance;
    if cs != [] {
      var n := |cs| - 1;
      CandidatesInOrder(ks[..n], cs[..n], query, filter, norm);
      var rest := Candidates(cs[..n], query, filter, norm);
      forall i | 0 <= i < |rest|
        ensures KeyLess(RefKey(rest[i].ref), ks[n])
      {
        assert rest[i] in rest;
      }
    }
  }

  /**
   A chunk whose vector cannot be compared with the query does not sort last: it ranks before a comparable
   chunk exactly when that one is on the far side of the query, or square to it and later in load order.
   */
  lemma {:induction false} MismatchRanksBefore(query: Vector, mismatched: Chunk, compared: Chunk, norm: Vector -> real)
    requires IsNorm(norm) && !Comparable(query, mismatched.vector) && Comparable(query, compared.vector)
    ensures Before(Scored(RefOf(mismatched), CosineDistance(query, norm(query), mismatched.vector, norm)),
                   Scored(RefOf(compared), CosineDistance(query, norm(query), compared.vector, norm)))
       <==> (Dot(query, compared.vector) < 0.0
             || (Dot(query, compared.vector) == 0.0 && KeyLess(KeyOf(mismatched), KeyOf(compared))))
  {
    hide Dot, Comparable, CosineDistance, KeyLess;
    SidesOfOne(query, mismatched.vector, norm);
    SidesOfOne(query, compared.vector, norm);
  }

  /** The first k of the ranking of all candidates. */
  ghost predicate TopK(r: seq<Scored>, all: seq<Scored>, k: nat) {
    && |r| == (if k < |all| then k else |all|)
    && exists rest :: Ranked(r + rest) && multiset(r + rest) == multiset(all)
  }

  lemma {:induction false} PrefixIsTopK(all: seq<Scored>, s: seq<Scored>, k: nat)
    requires Ranked(s) && multiset(s) == multiset(all)
    ensures TopK(if k < |s| then s[..k] else s, all, k)
  {
    hide Ranked;
    assert |s| == |all| by { assert |multiset(s)| == |multiset(all)|; }
    var n := if k < |s| then k else |s|;
    var r := if k < |s| then s[..k] else s;
    assert s == r + s[n..];
    assert Ranked(r + s[n..]) && multiset(r + s[n..]) == multiset(all);
  }

  /** Nothing that is left out ranks before anything that is kept; in particular nothing is nearer. */
  lemma {:induction false} NothingNearerLeftOut(r: seq<Scored>, all: seq<Scored>, k: nat, x: Scored, y: Scored)
    requires TopK(r, all, k) && x in r && y in all && y !in r
    ensures Before(x, y) && x.distance <= y.distance
  {
    hide Before;
    var rest :| Ranked(r + rest) && multiset(r + rest) == multiset(all);
    var s := r + rest;
    assert y in multiset(s);
    var i :| 0 <= i < |r| && r[i] == x;
    var j :| 0 <= j < |s| && s[j] == y;
    assert s[i] == x && j >= |r|;
    BeforeIsNoFarther(x, y);
  }

  lemma BeforeIsNoFarther(a: Scored, b: Scored)
    ensures Before(a, b) ==> a.distance <= b.distance
  {
  }

  /** The candidates are the permitted chunks, one each, and every distance is between 0 and 2. */
  lemma {:induction false} CandidatesArePermitted(cs: seq<Chunk>, query: Vector, filter: Filter, norm: Vector -> real, x: Scored)
    requires IsNorm(norm)
    ensures x in Candidates(cs, query, filter, norm)
       <==> exists c :: c in cs && (filter.allowedPaths.None? || c.path in filter.allowedPaths.value)
                     && x == Scored(RefOf(c), CosineDistance(query, norm(query), c.vector, norm))
    ensures x in Candidates(cs, query, filter, norm) ==> 0.0 <= x.distance <= 2.0
  {
    hide CosineDistance, IsNorm, RefOf;
    if cs != [] {
      var n := |cs| - 1;
      CandidatesArePermitted(cs[..n], query, filter, norm, x);
      DistanceInRange(query, cs[n].vector, norm);
      assert cs == cs[..n] + [cs[n]];
    }
  }

  /** No permitted comparable chunk that is left out has a larger cosine with the query than one that is kept. */
  lemma {:induction false} KeptHasLargerCosine(
      r: seq<Scored>, cs: seq<Chunk>, query: Vector, filter: Filter, k: nat, norm: Vector -> real, kept: Chunk, left: Chunk)
    requires IsNorm(norm) && TopK(r, Candidates(cs, query, filter, norm), k)
    requires left in cs && filter.Permits(left.path) && Comparable(query, kept.vector) && Comparable(query, left.vector)
    requires Scored(RefOf(kept), CosineDistance(query, norm(query), kept.vector, norm)) in r
    requires Scored(RefOf(left), CosineDistance(query, norm(query), left.vector, norm)) !in r
    ensures Dot(query, kept.vector) * norm(left.vector) >= Dot(query, left.vector) * norm(kept.vector)
  {
    hide Dot, Comparable, CosineDistance, TopK, Candidates, Before;
    var x := Scored(RefOf(kept), CosineDistance(query, norm(query), kept.vector, norm));
    var y := Scored(RefOf(left), CosineDistance(query, norm(query), left.vector, norm));
    CandidatesArePermitted(cs, query, filter, norm, y);
    NothingNearerLeftOut(r, Candidates(cs, query, filter, norm), k, x, y);
    NearerByCosine(query, left.vector, kept.vector, norm);
  }

  method Search(store: EmbeddingStore, query: Vector, filter: Filter, k: nat, norm: Vector -> real)
    returns (r: seq<Scored>, ghost keys: seq<Key>, ghost cs: seq<Chunk>)
    requires WellKeyed(store.chunks)
    ensures Loaded(store.chunks, filter.vaultName, keys)
    ensures |cs| == |keys| && forall i :: 0 <= i < |keys| ==> cs[i] == store.chunks[keys[i]]
    ensures TopK(r, Candidates(cs, query, filter, norm), k)
  {
    hide StableSort, CosineDistance, KeyLess;
    var loadedKeys, loaded := LoadChunks(store, filter.vaultName);
    keys, cs := loadedKeys, loaded;
    CandidatesInOrder(keys, cs, query, filter, norm);
    SortRanked(Candidates(cs, query, filter, norm));
    PrefixIsTopK(Candidates(cs, query, filter, norm), StableSort(Candidates(cs, query, filter, norm)), k);
    if k == 0 {
      return [], keys, cs;
    }
    var queryNorm := norm(query);
    var scored := [];
    for i := 0 to |loaded|
      invariant scored == Candidates(loaded[..i], query, filter, norm)
    {
      assert loaded[..i + 1][..i] == loaded[..i];
      if filter.Permits(loaded[i].path) {
        scored := scored + [Scored(RefOf(loaded[i]), CosineDistance(query, queryNorm, loaded[i].vector, norm))];
      }
    }
    assert loaded[..|loaded|] == loaded;
    var sorted := StableSort(scored);
    r := if k < |sorted| then sorted[..k] else sorted;
  }
}
