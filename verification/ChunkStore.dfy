/** The chunked store of `contents/chunk.rs`: files cut into sealed chunks and an index, against
    a plain map from path to bytes. The cipher is ideal: a blob opens only under the associated
    data it was sealed with, and to the text it was sealed from. */
module ChunkStore {
  import opened Wrappers
  import opened Text
  import opened ChunkMath
  import opened StoreAad
  import J = Json

  datatype StoreError =
    | InvalidLogicalPath
    | ChunkSizeIsZero
    | NotInIndex
    | FileIdIsNotUuid
    | MissingChunk
    | ChunkTagFailed
    | ChunkLengthMismatch
    | FileSizeMismatch

  datatype IndexEntry = IndexEntry(fileId: string, path: string, size: nat)

  type Blob = nat

  datatype Sealed = Sealed(aad: string, plain: Bytes)

  // ----- Names -----

  /** Hyphenated lower-case form, as `Uuid::to_string` prints it. */
  predicate IsUuid(s: string) {
    |s| == 36 && forall i :: 0 <= i < 36 ==>
      if i == 8 || i == 13 || i == 18 || i == 23 then s[i] == '-' else IsDigit(s[i]) || 'a' <= s[i] <= 'f'
  }

  function ChunkFileName(fileId: string, chunkIndex: nat): string {
    fileId + "." + Decimal(chunkIndex) + ".chunk.enc"
  }

  lemma ChunkFileNamesDiffer(a: string, i: nat, b: string, j: nat)
    requires |a| == |b| && ChunkFileName(a, i) == ChunkFileName(b, j)
    ensures a == b && i == j
  {
    assert ChunkFileName(a, i) == a + ("." + (Decimal(i) + ".chunk.enc"));
    assert ChunkFileName(b, j) == b + ("." + (Decimal(j) + ".chunk.enc"));
    assert ChunkFileName(a, i)[..|a|] == a && ChunkFileName(b, j)[..|b|] == b;
    J.SamePrefix(a, "." + (Decimal(i) + ".chunk.enc"), "." + (Decimal(j) + ".chunk.enc"));
    J.SamePrefix(".", Decimal(i) + ".chunk.enc", Decimal(j) + ".chunk.enc");
    J.NumberIsPrefixFree(i, j, ".chunk.enc", ".chunk.enc");
  }

  function SplitAll(s: string, c: char): (parts: seq<string>)
    decreases |s|
  {
    match SplitOnce(s, c)
    case None => [s]
    case Some((head, tail)) => [head] + SplitAll(tail, c)
  }

  /** `validate_logical_path`. */
  predicate IsLogicalPath(path: string) {
    && path != [] && path[0] != '/' && '\0' !in path && '\\' !in path
    && forall part :: part in SplitAll(path, '/') ==> part != [] && part != "." && part != ".."
  }

  // ----- The index -----

  /** `entries.iter().find`: the first entry of the path. */
  function Find(index: seq<IndexEntry>, path: string): (r: Option<IndexEntry>)
    ensures r.Some? ==> r.value in index && r.value.path == path
    ensures r.None? <==> forall e :: e in index ==> e.path != path
  {
    if index == [] then None
    else if index[0].path == path then Some(index[0])
    else Find(index[1..], path)
  }

  /** `entries.retain`: all entries of other paths. */
  function Without(index: seq<IndexEntry>, path: string): (r: seq<IndexEntry>)
    ensures forall e :: e in r <==> e in index && e.path != path
    ensures Unique(index) ==> Unique(r)
  {
    if index == [] then []
    else
      var rest := Without(index[1..], path);
      assert index == [index[0]] + index[1..];
      assert Unique(index) ==> Unique(index[1..]);
      assert Unique(index) ==> forall e :: e in index[1..] ==> e.path != index[0].path && e.fileId != index[0].fileId;
      if index[0].path == path then rest else [index[0]] + rest
  }

  ghost predicate Unique(index: seq<IndexEntry>) {
    forall i, j :: 0 <= i < j < |index| ==> index[i].path != index[j].path && index[i].fileId != index[j].fileId
  }

  // ----- Sealed chunks -----

  /** Slice `k` of a file, sealed under its position; the position is cast to 32 bits. */
  ghost function SealedChunk(h: VaultHeader, fileId: string, data: Bytes, k: nat): Sealed
    requires SliceStart(k, h.chunkSize) <= |data|
  {
    var s := Slice(data, k, h.chunkSize);
    Sealed(ChunkAad(h, fileId, k % 0x1_0000_0000, |data|, |s|), s)
  }

  ghost predicate IsChunkOf(h: VaultHeader, blob: Sealed, fileId: string, data: Bytes, k: nat) {
    SliceStart(k, h.chunkSize) < |data| && blob == SealedChunk(h, fileId, data, k)
  }

  /** Every blob ever sealed is some chunk of some file ever written. */
  ghost predicate OnlyChunks(h: VaultHeader, table: map<Blob, Sealed>, versions: map<string, Bytes>) {
    forall b :: b in table ==> exists f, k: nat :: f in versions && IsChunkOf(h, table[b], f, versions[f], k)
  }

  /** The decryption of the ideal cipher. */
  function Decrypt(table: map<Blob, Sealed>, blob: Blob, aad: string): Option<Bytes> {
    if blob in table && table[blob].aad == aad then Some(table[blob].plain) else None
  }

  /** What opens under the position of a chunk is that chunk, wherever the blob was found. */
  lemma OnlyTheChunkOpens(h: VaultHeader, table: map<Blob, Sealed>, versions: map<string, Bytes>,
                          blob: Blob, fileId: string, k: nat, size: nat, len: nat)
    requires OnlyChunks(h, table, versions)
    requires Decrypt(table, blob, ChunkAad(h, fileId, k, size, len)).Some?
    ensures fileId in versions && size == |versions[fileId]|
    ensures exists j: nat :: IsChunkOf(h, table[blob], fileId, versions[fileId], j) && k == j % 0x1_0000_0000
  {
    var f, j: nat :| f in versions && IsChunkOf(h, table[blob], f, versions[f], j);
    var s := Slice(versions[f], j, h.chunkSize);
    ChunkAadDetermines(h, ChunkId(fileId, k, size, len), h, ChunkId(f, j % 0x1_0000_0000, |versions[f]|, |s|));
    hide ChunkAad;
    hide Slice;
    assert IsChunkOf(h, table[blob], fileId, versions[fileId], j);
  }

  /** Where slice `k` of a file lies is exact while the file has fewer than 2^32 slices. */
  ghost predicate Fits(size: nat, chunkSize: nat) {
    size <= SliceStart(0xFFFF_FFFF, chunkSize)
  }

  lemma PositionIsExact(size: nat, chunkSize: nat, j: nat)
    requires 0 < chunkSize && Fits(size, chunkSize) && SliceStart(j, chunkSize) < size
    ensures j % 0x1_0000_0000 == j
  {
    if j > 0xFFFF_FFFF {
      SliceStartGrows(0xFFFF_FFFF, j, chunkSize);
    }
    hide SliceStart;
  }

  // ----- Index, data directory and history as values -----

  ghost predicate IsIndexed(index: seq<IndexEntry>, versions: map<string, Bytes>) {
    && Unique(index)
    && (forall f :: f in versions ==> IsUuid(f))
    && forall e :: e in index ==> e.fileId in versions && e.size == |versions[e.fileId]|
  }

  /** The plain map the index stands for: path to bytes. */
  ghost function ContentsOf(index: seq<IndexEntry>, versions: map<string, Bytes>): map<string, Bytes>
    requires IsIndexed(index, versions)
  {
    map p | p in (set e | e in index :: e.path) :: versions[Find(index, p).value.fileId]
  }

  /** Index, cipher and history agree; nothing is said about the data directory. */
  ghost predicate IsBound(h: VaultHeader, index: seq<IndexEntry>, table: map<Blob, Sealed>,
                          versions: map<string, Bytes>)
  {
    && h.chunkSize < 0x1_0000_0000 && (index != [] ==> h.chunkSize > 0)
    && IsIndexed(index, versions)
    && OnlyChunks(h, table, versions)
  }

  ghost predicate IsIntact(h: VaultHeader, index: seq<IndexEntry>, data: map<string, Blob>,
                           table: map<Blob, Sealed>, versions: map<string, Bytes>)
    requires IsIndexed(index, versions)
  {
    forall e :: e in index ==> AllInPlace(h, data, table, e.fileId, versions[e.fileId])
  }

  lemma FindIsMembership(index: seq<IndexEntry>, e: IndexEntry)
    requires Unique(index) && e in index
    ensures Find(index, e.path) == Some(e)
  {
    var i :| 0 <= i < |index| && index[i] == e;
    var f := Find(index, e.path).value;
    var j :| 0 <= j < |index| && index[j] == f;
    assert i == j;
  }

  /** Slice `k` of an indexed file lies under its own name. */
  ghost predicate InPlace(h: VaultHeader, data: map<string, Blob>, table: map<Blob, Sealed>,
                          fileId: string, plain: Bytes, k: nat) {
    SliceStart(k, h.chunkSize) < |plain| ==>
      var name := ChunkFileName(fileId, k);
      name in data && data[name] in table && table[data[name]] == SealedChunk(h, fileId, plain, k)
  }

  ghost predicate AllInPlace(h: VaultHeader, data: map<string, Blob>, table: map<Blob, Sealed>,
                             fileId: string, plain: Bytes) {
    Fits(|plain|, h.chunkSize) ==> forall k: nat :: InPlace(h, data, table, fileId, plain, k)
  }

  ghost predicate OwnsChunk(h: VaultHeader, e: IndexEntry, name: string) {
    exists k: nat :: SliceStart(k, h.chunkSize) < e.size && name == ChunkFileName(e.fileId, k)
  }

  ghost predicate SomeOwns(h: VaultHeader, index: seq<IndexEntry>, name: string) {
    exists e :: e in index && OwnsChunk(h, e, name)
  }

  ghost predicate IsTidy(h: VaultHeader, index: seq<IndexEntry>, data: map<string, Blob>) {
    && (forall e :: e in index ==> Fits(e.size, h.chunkSize))
    && forall name :: name in data <==> SomeOwns(h, index, name)
  }

  ghost predicate IsChunkName(fileId: string, name: string) {
    exists k: nat :: name == ChunkFileName(fileId, k)
  }

  /** The two directories agree on everything that is not a chunk of `fileId`. */
  ghost predicate SameElsewhere(before: map<string, Blob>, after: map<string, Blob>, fileId: string) {
    forall name :: !IsChunkName(fileId, name) ==>
      (name in before <==> name in after) && (name in before ==> before[name] == after[name])
  }

  ghost predicate Extends(before: map<Blob, Sealed>, after: map<Blob, Sealed>) {
    forall b :: b in before ==> b in after && after[b] == before[b]
  }

  lemma OtherNames(a: string, k: nat, b: string)
    requires IsUuid(a) && IsUuid(b) && a != b
    ensures !IsChunkName(b, ChunkFileName(a, k))
  {
    forall j: nat | ChunkFileName(a, k) == ChunkFileName(b, j) ensures false {
      ChunkFileNamesDiffer(a, k, b, j);
    }
  }

  /** Touching the chunks of one file leaves those of another where they are. */
  lemma OthersStayInPlace(h: VaultHeader, before: map<string, Blob>, after: map<string, Blob>,
                          table: map<Blob, Sealed>, table': map<Blob, Sealed>,
                          touched: string, fileId: string, plain: Bytes)
    requires IsUuid(touched) && IsUuid(fileId) && touched != fileId
    requires SameElsewhere(before, after, touched) && Extends(table, table')
    requires AllInPlace(h, before, table, fileId, plain)
    ensures AllInPlace(h, after, table', fileId, plain)
  {
    if Fits(|plain|, h.chunkSize) {
      forall k: nat ensures InPlace(h, after, table', fileId, plain, k) {
        assert InPlace(h, before, table, fileId, plain, k);
        OtherNames(fileId, k, touched);
        hide ChunkFileName;
        hide SliceStart;
      }
    }
  }

  ghost function WithoutChunks(data: map<string, Blob>, fileId: string, count: nat): map<string, Blob> {
    map name | name in data && !(exists k: nat :: k < count && name == ChunkFileName(fileId, k)) :: data[name]
  }

  lemma TidyWithout(h: VaultHeader, index: seq<IndexEntry>, data: map<string, Blob>, e: IndexEntry,
                    versions: map<string, Bytes>)
    requires 0 < h.chunkSize < 0x1_0000_0000 && IsIndexed(index, versions) && e in index && IsTidy(h, index, data)
    ensures IsTidy(h, Without(index, e.path), WithoutChunks(data, e.fileId, ChunkCount(e.size, h.chunkSize)))
  {
    var count := ChunkCount(e.size, h.chunkSize);
    var index' := Without(index, e.path);
    ChunkArithmeticIsExact(e.size, h.chunkSize);
    OnlyOneOfPath(index, e);
    forall name ensures name in WithoutChunks(data, e.fileId, count) <==> SomeOwns(h, index', name) {
      OwnedByCount(h, e, name);
      if SomeOwns(h, index', name) {
        var o :| o in index' && OwnsChunk(h, o, name);
        OwnersDiffer(h, o, e, name);
      }
    }
  }

  lemma OnlyOneOfPath(index: seq<IndexEntry>, e: IndexEntry)
    requires Unique(index) && e in index
    ensures forall o :: o in Without(index, e.path) <==> o in index && o != e
    ensures forall o :: o in Without(index, e.path) ==> o.fileId != e.fileId
  {
    forall o | o in index && o != e ensures o.path != e.path && o.fileId != e.fileId {
      var i :| 0 <= i < |index| && index[i] == e;
      var j :| 0 <= j < |index| && index[j] == o;
      assert i != j;
    }
  }

  lemma OwnersDiffer(h: VaultHeader, o: IndexEntry, e: IndexEntry, name: string)
    requires IsUuid(o.fileId) && IsUuid(e.fileId) && o.fileId != e.fileId && OwnsChunk(h, o, name)
    ensures !IsChunkName(e.fileId, name)
  {
    var k: nat :| SliceStart(k, h.chunkSize) < o.size && name == ChunkFileName(o.fileId, k);
    OtherNames(o.fileId, k, e.fileId);
  }

  /** The names removed for an entry that fits are exactly the chunks it owns. */
  lemma OwnedByCount(h: VaultHeader, e: IndexEntry, name: string)
    requires 0 < h.chunkSize < 0x1_0000_0000 && Fits(e.size, h.chunkSize)
    ensures OwnsChunk(h, e, name)
       <==> exists k: nat :: k < ChunkCount(e.size, h.chunkSize) && name == ChunkFileName(e.fileId, k)
  {
    ChunkArithmeticIsExact(e.size, h.chunkSize);
    hide ChunkFileName;
    hide ChunkCount;
    forall k: nat ensures k < SliceCount(e.size, h.chunkSize) <==> SliceStart(k, h.chunkSize) < e.size {
      SliceExists(e.size, k, h.chunkSize);
    }
    hide SliceStart;
    hide SliceCount;
  }

  lemma ContentsFacts(index: seq<IndexEntry>, versions: map<string, Bytes>)
    requires IsIndexed(index, versions)
    ensures forall e :: e in index ==>
              e.path in ContentsOf(index, versions) && ContentsOf(index, versions)[e.path] == versions[e.fileId]
    ensures forall p :: p in ContentsOf(index, versions) ==> exists e :: e in index && e.path == p
  {
    forall e | e in index ensures Find(index, e.path) == Some(e) {
      FindIsMembership(index, e);
    }
  }

  lemma IndexedWithout(index: seq<IndexEntry>, versions: map<string, Bytes>, path: string)
    requires IsIndexed(index, versions)
    ensures IsIndexed(Without(index, path), versions)
  {
    hide Unique;
    hide IsUuid;
  }

  lemma ContentsWithout(index: seq<IndexEntry>, versions: map<string, Bytes>, path: string)
    requires IsIndexed(index, versions)
    ensures IsIndexed(Without(index, path), versions)
    ensures ContentsOf(Without(index, path), versions) == ContentsOf(index, versions) - {path}
  {
    IndexedWithout(index, versions, path);
    ContentsFacts(index, versions);
    ContentsFacts(Without(index, path), versions);
    hide ContentsOf;
    hide Unique;
    hide IsUuid;
    hide IsIndexed;
    var c, c' := ContentsOf(index, versions), ContentsOf(Without(index, path), versions);
    forall p | p in c && p != path ensures p in c' && c'[p] == c[p] {
      var e :| e in index && e.path == p;
      assert e in Without(index, path);
    }
    forall p | p in c' ensures p in c && p != path {
      var e :| e in Without(index, path) && e.path == p;
      assert e in index;
    }
    hide Without;
    SameMap(c', c - {path});
  }

  lemma IndexedWith(index: seq<IndexEntry>, versions: map<string, Bytes>, e: IndexEntry, plain: Bytes)
    requires IsIndexed(index, versions) && e.fileId !in versions && IsUuid(e.fileId) && e.size == |plain|
    requires forall o :: o in index ==> o.path != e.path
    ensures IsIndexed(index + [e], versions[e.fileId := plain])
  {
    hide IsUuid;
  }

  lemma ContentsWith(index: seq<IndexEntry>, versions: map<string, Bytes>, e: IndexEntry, plain: Bytes)
    requires IsIndexed(index, versions) && e.fileId !in versions && IsUuid(e.fileId) && e.size == |plain|
    requires e.path !in ContentsOf(index, versions)
    ensures IsIndexed(index + [e], versions[e.fileId := plain])
    ensures ContentsOf(index + [e], versions[e.fileId := plain]) == ContentsOf(index, versions)[e.path := plain]
  {
    hide ContentsOf;
    hide Unique;
    hide IsUuid;
    hide IsIndexed;
    var index', versions' := index + [e], versions[e.fileId := plain];
    ContentsFacts(index, versions);
    IndexedWith(index, versions, e, plain);
    ContentsFacts(index', versions');
    var c, c' := ContentsOf(index, versions), ContentsOf(index', versions');
    assert e in index' && c'[e.path] == plain;
    forall p | p in c' && p != e.path ensures p in c && c'[p] == c[p] {
      var o :| o in index' && o.path == p;
      assert o in index && o.fileId in versions by {
        IdsAreKnown(index, versions, o);
      }
    }
    forall p | p in c ensures p in c' {
      var o :| o in index && o.path == p;
      assert o in index';
    }
    SameMap(c', c[e.path := plain]);
  }

  lemma IdsAreKnown(index: seq<IndexEntry>, versions: map<string, Bytes>, o: IndexEntry)
    requires IsIndexed(index, versions)
    ensures o in index ==> o.fileId in versions
  {
  }

  lemma SameMap(m: map<string, Bytes>, n: map<string, Bytes>)
    requires forall p :: p in m <==> p in n
    requires forall p :: p in m ==> m[p] == n[p]
    ensures m == n
  {}

  // ----- Writing -----

  /** The first `k` slices of a file have been written, nothing else has changed. */
  ghost predicate Written(h: VaultHeader, data0: map<string, Blob>, data: map<string, Blob>,
                          table0: map<Blob, Sealed>, table: map<Blob, Sealed>, fileId: string, plain: Bytes, k: nat) {
    && SameElsewhere(data0, data, fileId) && Extends(table0, table)
    && (Fits(|plain|, h.chunkSize) ==>
         && (forall j: nat :: j < k ==> InPlace(h, data, table, fileId, plain, j))
         && forall name :: name in data ==> name in data0 || exists j: nat :: j < k && name == ChunkFileName(fileId, j))
  }

  lemma SliceWritten(h: VaultHeader, data0: map<string, Blob>, data: map<string, Blob>,
                     table0: map<Blob, Sealed>, table: map<Blob, Sealed>,
                     fileId: string, plain: Bytes, k: nat, blob: Blob)
    requires h.chunkSize > 0 && SliceStart(k, h.chunkSize) < |plain| && blob !in table
    requires Written(h, data0, data, table0, table, fileId, plain, k)
    ensures Written(h, data0, data[ChunkFileName(fileId, k % 0x1_0000_0000) := blob],
                    table0, table[blob := SealedChunk(h, fileId, plain, k)], fileId, plain, k + 1)
  {
    var name := ChunkFileName(fileId, k % 0x1_0000_0000);
    var data' := data[name := blob];
    var table' := table[blob := SealedChunk(h, fileId, plain, k)];
    assert IsChunkName(fileId, name);
    if Fits(|plain|, h.chunkSize) {
      PositionIsExact(|plain|, h.chunkSize, k);
      forall j: nat | j < k ensures InPlace(h, data', table', fileId, plain, j) {
        assert InPlace(h, data, table, fileId, plain, j);
        if ChunkFileName(fileId, j) == name {
          ChunkFileNamesDiffer(fileId, j, fileId, k);
        }
      }
      hide ChunkFileName;
      hide SealedChunk;
      hide SliceStart;
      assert InPlace(h, data', table', fileId, plain, k);
    }
    hide ChunkFileName;
    hide SealedChunk;
    hide InPlace;
  }

  lemma SealedIsAChunk(h: VaultHeader, table: map<Blob, Sealed>, versions: map<string, Bytes>,
                       fileId: string, k: nat, blob: Blob)
    requires OnlyChunks(h, table, versions) && fileId in versions && SliceStart(k, h.chunkSize) < |versions[fileId]|
    ensures OnlyChunks(h, table[blob := SealedChunk(h, fileId, versions[fileId], k)], versions)
  {
    var table' := table[blob := SealedChunk(h, fileId, versions[fileId], k)];
    hide SealedChunk;
    forall b | b in table' ensures exists f, j: nat :: f in versions && IsChunkOf(h, table'[b], f, versions[f], j) {
      if b == blob {
        assert IsChunkOf(h, table'[b], fileId, versions[fileId], k);
      } else {
        var f, j: nat :| f in versions && IsChunkOf(h, table[b], f, versions[f], j);
        assert IsChunkOf(h, table'[b], f, versions[f], j);
      }
    }
  }

  /** What one turn of the write loop adds. */
  lemma OneMoreSlice(h: VaultHeader, data0: map<string, Blob>, data: map<string, Blob>,
                     table0: map<Blob, Sealed>, table: map<Blob, Sealed>, versions: map<string, Bytes>,
                     fileId: string, plain: Bytes, k: nat, blob: Blob)
    requires h.chunkSize > 0 && SliceStart(k, h.chunkSize) < |plain| && blob !in table
    requires OnlyChunks(h, table, versions) && fileId in versions && versions[fileId] == plain
    requires Written(h, data0, data, table0, table, fileId, plain, k)
    ensures var start := SliceStart(k, h.chunkSize);
            var slice := plain[start..Min(start + h.chunkSize, |plain|)];
            var table' := table[blob := Sealed(ChunkAad(h, fileId, k % 0x1_0000_0000, |plain|, |slice|), slice)];
            && OnlyChunks(h, table', versions)
            && Written(h, data0, data[ChunkFileName(fileId, k % 0x1_0000_0000) := blob], table0, table',
                       fileId, plain, k + 1)
  {
    SealedIsAChunk(h, table, versions, fileId, k, blob);
    SliceWritten(h, data0, data, table0, table, fileId, plain, k, blob);
    hide SliceStart;
    hide OnlyChunks;
    hide Written;
    hide ChunkAad;
    hide ChunkFileName;
  }

  lemma NextSlice(size: nat, chunkSize: nat, k: nat)
    requires chunkSize > 0 && SliceStart(k, chunkSize) < size
    ensures SliceStart(k + 1, chunkSize) == SliceStart(k, chunkSize) + chunkSize
    ensures k + 1 <= SliceCount(size, chunkSize)
    ensures SliceStart(k + 1, chunkSize) >= size ==> k + 1 == SliceCount(size, chunkSize)
  {
    SliceStartSteps(k, chunkSize);
    SliceExists(size, k, chunkSize);
    SliceExists(size, k + 1, chunkSize);
    hide SliceStart;
    hide SliceCount;
  }

  lemma NewVersionKeepsChunks(h: VaultHeader, table: map<Blob, Sealed>, versions: map<string, Bytes>,
                              fileId: string, plain: Bytes)
    requires OnlyChunks(h, table, versions) && fileId !in versions
    ensures OnlyChunks(h, table, versions[fileId := plain])
  {
    hide IsChunkOf;
    var versions' := versions[fileId := plain];
    forall b | b in table ensures exists f, j: nat :: f in versions' && IsChunkOf(h, table[b], f, versions'[f], j) {
      var f, j: nat :| f in versions && IsChunkOf(h, table[b], f, versions[f], j);
      assert f in versions' && IsChunkOf(h, table[b], f, versions'[f], j);
    }
  }

  /** When all slices are written, the new entry's chunks are in place and the others untouched. */
  lemma AddingIsSafe(h: VaultHeader, index: seq<IndexEntry>, data0: map<string, Blob>, data: map<string, Blob>,
                     table0: map<Blob, Sealed>, table: map<Blob, Sealed>, versions: map<string, Bytes>,
                     e: IndexEntry, plain: Bytes, n: nat)
    requires 0 < h.chunkSize < 0x1_0000_0000 && IsIndexed(index, versions)
    requires e.fileId !in versions && IsUuid(e.fileId) && e.size == |plain|
    requires e.path !in ContentsOf(index, versions)
    requires n == SliceCount(|plain|, h.chunkSize) && Written(h, data0, data, table0, table, e.fileId, plain, n)
    ensures var index', versions' := index + [e], versions[e.fileId := plain];
            && IsIndexed(index', versions')
            && ContentsOf(index', versions') == ContentsOf(index, versions)[e.path := plain]
            && (IsIntact(h, index, data0, table0, versions) ==> IsIntact(h, index', data, table, versions'))
            && (IsTidy(h, index, data0) && Fits(|plain|, h.chunkSize) ==> IsTidy(h, index', data))
  {
    var index', versions' := index + [e], versions[e.fileId := plain];
    ContentsWith(index, versions, e, plain);
    hide ContentsOf;
    hide Unique;
    NewChunksInPlace(h, data0, data, table0, table, e.fileId, plain, n);
    if IsIntact(h, index, data0, table0, versions) {
      forall o | o in index' ensures AllInPlace(h, data, table, o.fileId, versions'[o.fileId]) {
        if o != e {
          assert o in index;
          OthersStayInPlace(h, data0, data, table0, table, e.fileId, o.fileId, versions[o.fileId]);
        }
      }
    }
    hide AllInPlace;
    if IsTidy(h, index, data0) && Fits(|plain|, h.chunkSize) {
      TidyWith(h, index, data0, data, table0, table, versions, e, plain, n);
    }
    hide IsTidy;
  }

  lemma NewChunksInPlace(h: VaultHeader, data0: map<string, Blob>, data: map<string, Blob>,
                         table0: map<Blob, Sealed>, table: map<Blob, Sealed>, fileId: string, plain: Bytes, n: nat)
    requires h.chunkSize > 0 && n == SliceCount(|plain|, h.chunkSize)
    requires Written(h, data0, data, table0, table, fileId, plain, n)
    ensures AllInPlace(h, data, table, fileId, plain)
  {
    forall k: nat | Fits(|plain|, h.chunkSize) ensures InPlace(h, data, table, fileId, plain, k) {
      SliceExists(|plain|, k, h.chunkSize);
      hide SliceStart;
      hide SliceCount;
      hide ChunkFileName;
    }
  }

  lemma TidyWith(h: VaultHeader, index: seq<IndexEntry>, data0: map<string, Blob>, data: map<string, Blob>,
                 table0: map<Blob, Sealed>, table: map<Blob, Sealed>, versions: map<string, Bytes>,
                 e: IndexEntry, plain: Bytes, n: nat)
    requires h.chunkSize > 0 && IsIndexed(index, versions)
    requires e.fileId !in versions && IsUuid(e.fileId) && e.size == |plain|
    requires n == SliceCount(|plain|, h.chunkSize) && Written(h, data0, data, table0, table, e.fileId, plain, n)
    requires IsTidy(h, index, data0) && Fits(|plain|, h.chunkSize)
    ensures IsTidy(h, index + [e], data)
  {
    var index' := index + [e];
    assert forall o :: o in index' <==> o in index || o == e;
    forall name ensures name in data <==> SomeOwns(h, index', name) {
      if name in data {
        if name in data0 {
          var o :| o in index && OwnsChunk(h, o, name);
          assert o in index';
        } else {
          var j: nat :| j < n && name == ChunkFileName(e.fileId, j);
          SliceExists(|plain|, j, h.chunkSize);
          assert OwnsChunk(h, e, name);
        }
      }
      if SomeOwns(h, index', name) {
        var o :| o in index' && OwnsChunk(h, o, name);
        if o == e {
          var k: nat :| SliceStart(k, h.chunkSize) < e.size && name == ChunkFileName(e.fileId, k);
          SliceExists(|plain|, k, h.chunkSize);
          assert InPlace(h, data, table, e.fileId, plain, k);
        } else {
          assert SomeOwns(h, index, name);
          OwnersDiffer(h, o, e, name);
        }
      }
    }
  }

  // ----- Reading -----

  /** The body of the read loop: one chunk file, opened under its expected position. */
  function OpenChunk(h: VaultHeader, data: map<string, Blob>, table: map<Blob, Sealed>, e: IndexEntry, k: nat)
    : Result<Bytes, StoreError>
  {
    var expected := ChunkPlainLen(e.size, k, h.chunkSize);
    var name := ChunkFileName(e.fileId, k);
    if name !in data then Err(MissingChunk)
    else match Decrypt(table, data[name], ChunkAad(h, e.fileId, k, e.size, expected))
      case None => Err(ChunkTagFailed)
      case Some(plain) => if |plain| != expected then Err(ChunkLengthMismatch) else Ok(plain)
  }

  /** An opened chunk is the slice of the file that belongs there, or at least as long; and the
      chunk opens when it lies under its name. */
  lemma OpenChunkIsFaithful(h: VaultHeader, data: map<string, Blob>, table: map<Blob, Sealed>,
                            versions: map<string, Bytes>, e: IndexEntry, k: nat)
    requires 0 < h.chunkSize < 0x1_0000_0000 && OnlyChunks(h, table, versions)
    requires e.fileId in versions && e.size == |versions[e.fileId]| && k < ChunkCount(e.size, h.chunkSize)
    ensures SliceStart(k, h.chunkSize) < e.size
    ensures var r := OpenChunk(h, data, table, e, k); var plain := versions[e.fileId];
            && (r.Ok? ==> |r.value| == Min(h.chunkSize, e.size - SliceStart(k, h.chunkSize)))
            && (r.Ok? && Fits(e.size, h.chunkSize) ==> r.value == Slice(plain, k, h.chunkSize))
            && (InPlace(h, data, table, e.fileId, plain, k) && k < 0x1_0000_0000 ==> r.Ok?)
            && (r.Err? ==> r.error != NotInIndex)
  {
    var plain := versions[e.fileId];
    hide Fits;
    CountIsCastCount(e.size, h.chunkSize);
    SliceExists(e.size, k, h.chunkSize);
    PlainLenIsSliceLength(plain, k, h.chunkSize);
    hide SliceStart;
    hide SliceCount;
    hide ChunkCount;
    hide ChunkPlainLen;
    hide ChunkAad;
    hide ChunkFileName;
    hide OnlyChunks;
    hide IsChunkOf;
    hide InPlace;
    if InPlace(h, data, table, e.fileId, plain, k) && k < 0x1_0000_0000 {
      InPlaceOpens(h, data, table, e, plain, k);
    }
    if OpenChunk(h, data, table, e, k).Ok? {
      OpenedIsTheSlice(h, table, versions, data[ChunkFileName(e.fileId, k)], e, k,
                       ChunkPlainLen(e.size, k, h.chunkSize));
    }
    hide Slice;
  }

  lemma InPlaceOpens(h: VaultHeader, data: map<string, Blob>, table: map<Blob, Sealed>, e: IndexEntry,
                     plain: Bytes, k: nat)
    requires h.chunkSize > 0 && InPlace(h, data, table, e.fileId, plain, k) && k < 0x1_0000_0000 && e.size == |plain|
    requires SliceStart(k, h.chunkSize) < |plain|
    requires ChunkPlainLen(e.size, k, h.chunkSize) == |Slice(plain, k, h.chunkSize)|
    ensures OpenChunk(h, data, table, e, k).Ok?
  {
    hide SliceStart;
    hide Slice;
    hide ChunkPlainLen;
    hide ChunkAad;
    hide ChunkFileName;
  }

  lemma OpenedIsTheSlice(h: VaultHeader, table: map<Blob, Sealed>, versions: map<string, Bytes>,
                         blob: Blob, e: IndexEntry, k: nat, len: nat)
    requires 0 < h.chunkSize && OnlyChunks(h, table, versions)
    requires e.fileId in versions && e.size == |versions[e.fileId]| && SliceStart(k, h.chunkSize) <= e.size
    requires Decrypt(table, blob, ChunkAad(h, e.fileId, k, e.size, len)).Some?
    ensures Fits(e.size, h.chunkSize) ==> table[blob].plain == Slice(versions[e.fileId], k, h.chunkSize)
  {
    OnlyTheChunkOpens(h, table, versions, blob, e.fileId, k, e.size, len);
    hide SliceStart;
    hide Slice;
    hide ChunkAad;
    hide OnlyChunks;
    var j: nat :| IsChunkOf(h, table[blob], e.fileId, versions[e.fileId], j) && k == j % 0x1_0000_0000;
    if Fits(e.size, h.chunkSize) {
      PositionIsExact(e.size, h.chunkSize, j);
    }
  }

  /** Read one file. Whatever lies in the data directory, the result is the bytes last written
      to the path or an error; it is those bytes when the chunks are in place and the file has
      fewer than 2^32 of them, and an error whenever it has more. */
  method ReadFile(h: VaultHeader, index: seq<IndexEntry>, data: map<string, Blob>, table: map<Blob, Sealed>,
                  ghost versions: map<string, Bytes>, path: string)
    returns (r: Result<Bytes, StoreError>)
    requires IsBound(h, index, table, versions)
    ensures path !in ContentsOf(index, versions) <==> r == Err(NotInIndex)
    ensures r.Ok? ==> path in ContentsOf(index, versions) && r.value == ContentsOf(index, versions)[path]
    ensures r.Ok? ==> Fits(|r.value|, h.chunkSize)
    ensures IsIntact(h, index, data, table, versions) && path in ContentsOf(index, versions) ==>
      Fits(|ContentsOf(index, versions)[path]|, h.chunkSize) ==> r.Ok?
  {
    ContentsFacts(index, versions);
    hide ContentsOf;
    hide OnlyChunks;
    hide Unique;
    var found := Find(index, path);
    if found.None? {
      return Err(NotInIndex);
    }
    var entry := found.value;
    if !IsUuid(entry.fileId) {
      return Err(FileIdIsNotUuid);
    }
    hide IsUuid;
    r := ReadChunks(h, data, table, versions, entry);
    assert IsIntact(h, index, data, table, versions)
      ==> AllInPlace(h, data, table, entry.fileId, versions[entry.fileId]);
  }

  method ReadChunks(h: VaultHeader, data: map<string, Blob>, table: map<Blob, Sealed>,
                    ghost versions: map<string, Bytes>, entry: IndexEntry)
    returns (r: Result<Bytes, StoreError>)
    requires 0 < h.chunkSize < 0x1_0000_0000 && OnlyChunks(h, table, versions)
    requires entry.fileId in versions && entry.size == |versions[entry.fileId]|
    ensures r.Ok? ==> r.value == versions[entry.fileId] && Fits(entry.size, h.chunkSize)
    ensures AllInPlace(h, data, table, entry.fileId, versions[entry.fileId]) && Fits(entry.size, h.chunkSize) ==> r.Ok?
    ensures r.Err? ==> r.error != NotInIndex
  {
    ghost var plainText := versions[entry.fileId];
    var count := ChunkCount(entry.size, h.chunkSize);
    ChunkArithmeticIsExact(entry.size, h.chunkSize);
    SliceStartSteps(0, h.chunkSize);
    hide SliceStart;
    hide ChunkCount;
    hide OnlyChunks;
    hide OpenChunk;
    var out: Bytes := [];
    var k := 0;
    while k < count
      invariant 0 <= k <= count
      invariant |out| == Min(SliceStart(k, h.chunkSize), entry.size)
      invariant Fits(entry.size, h.chunkSize) ==> out == plainText[..|out|]
    {
      var chunk := OpenChunk(h, data, table, entry, k);
      OpenChunkIsFaithful(h, data, table, versions, entry, k);
      if chunk.Err? {
        assert AllInPlace(h, data, table, entry.fileId, plainText) && Fits(entry.size, h.chunkSize)
          ==> InPlace(h, data, table, entry.fileId, plainText, k);
        return Err(chunk.error);
      }
      SliceStartSteps(k, h.chunkSize);
      out := out + chunk.value;
      k := k + 1;
    }
    SliceExists(entry.size, count, h.chunkSize);
    hide SliceCount;
    if |out| != entry.size {
      return Err(FileSizeMismatch);
    }
    assert plainText[..|out|] == plainText;
    return Ok(out);
  }

  /** Every blob sealed so far used an earlier nonce. */
  ghost predicate NoncesBelow(table: map<Blob, Sealed>, nonce: nat) {
    forall b :: b in table ==> b < nonce
  }

  class Store {
    const header: VaultHeader
    var index: seq<IndexEntry>
    /** The files of the data directory. */
    var data: map<string, Blob>
    /** The ideal cipher's record of what was sealed, and its next unused nonce. */
    var table: map<Blob, Sealed>
    var nextNonce: Blob
    /** The plain text of every file id ever written. */
    ghost var versions: map<string, Bytes>

    constructor (header: VaultHeader)
      requires header.chunkSize < 0x1_0000_0000
      ensures this.header == header && Bound() && Intact() && Tidy() && Contents() == map[]
      ensures versions == map[]
    {
      this.header := header;
      index, data, table, nextNonce, versions := [], map[], map[], 0, map[];
    }

    /** Index and cipher agree with the history; nothing is said about the data directory. */
    ghost predicate Bound()
      reads this
    {
      && IsBound(header, index, table, versions)
      && NoncesBelow(table, nextNonce)
    }

    ghost function Contents(): map<string, Bytes>
      requires IsIndexed(index, versions)
      reads this
    {
      ContentsOf(index, versions)
    }

    /** Every chunk of every indexed file lies under its own name. */
    ghost predicate Intact()
      requires IsIndexed(index, versions)
      reads this
    {
      IsIntact(header, index, data, table, versions)
    }

    /** The data directory holds the chunk files of the indexed entries and nothing else. */
    ghost predicate Tidy()
      reads this
    {
      IsTidy(header, index, data)
    }

    /** Anything at all may happen to the data directory. */
    method Rearrange(files: map<string, Blob>)
      requires Bound()
      modifies this`data
      ensures Bound() && Contents() == old(Contents()) && data == files
    {
      data := files;
    }

    method ReadLogicalFile(path: string) returns (r: Result<Bytes, StoreError>)
      requires Bound()
      ensures path !in Contents() <==> r == Err(NotInIndex)
      ensures r.Ok? ==> path in Contents() && r.value == Contents()[path]
      ensures Intact() && path in Contents() && Fits(|Contents()[path]|, header.chunkSize) ==> r == Ok(Contents()[path])
    {
      r := ReadFile(header, index, data, table, versions, path);
    }

    /** The chunk files of one entry, as many as the cast count says. */
    method RemoveFileChunks(fileId: string, size: nat)
      requires header.chunkSize > 0
      modifies this`data
      ensures data == WithoutChunks(old(data), fileId, ChunkCount(size, header.chunkSize))
    {
      var count := ChunkCount(size, header.chunkSize);
      hide ChunkFileName;
      var k := 0;
      assert data == WithoutChunks(data, fileId, 0);
      while k < count
        invariant 0 <= k <= count
        invariant data == WithoutChunks(old(data), fileId, k)
      {
        data := data - {ChunkFileName(fileId, k)};
        k := k + 1;
      }
    }

    /** Encrypt under a nonce never used before: the blob is new. */
    method Encrypt(plain: Bytes, aad: string) returns (blob: Blob)
      requires NoncesBelow(table, nextNonce)
      modifies this`table, this`nextNonce
      ensures blob !in old(table) && table == old(table)[blob := Sealed(aad, plain)]
      ensures NoncesBelow(table, nextNonce)
    {
      blob := nextNonce;
      table := table[blob := Sealed(aad, plain)];
      nextNonce := nextNonce + 1;
    }

    /** Drop the old chunks and the old entry of a path, if there are any. */
    method RemoveExisting(path: string)
      requires Bound() && header.chunkSize > 0
      modifies this`data, this`index
      ensures Bound() && Contents() == old(Contents()) - {path}
      ensures old(Intact()) ==> Intact()
      ensures old(Tidy()) ==> Tidy()
    {
      hide IsIndexed;
      hide ContentsOf;
      hide OnlyChunks;
      hide IsIntact;
      hide IsTidy;
      hide WithoutChunks;
      hide Without;
      RemovalIsSafe(header, index, data, table, versions, path);
      var existing := Find(index, path);
      if existing.Some? {
        RemoveFileChunks(existing.value.fileId, existing.value.size);
        index := Without(index, path);
      } else {
        NothingWithout(index, path);
      }
    }

    /** Cut, seal and store the slices of one file. */
    method WriteChunks(fileId: string, plainText: Bytes)
      requires 0 < header.chunkSize && OnlyChunks(header, table, versions) && NoncesBelow(table, nextNonce)
      requires fileId in versions && versions[fileId] == plainText
      modifies this`data, this`table, this`nextNonce
      ensures OnlyChunks(header, table, versions) && NoncesBelow(table, nextNonce)
      ensures Written(header, old(data), data, old(table), table, fileId, plainText,
                      SliceCount(|plainText|, header.chunkSize))
    {
      var size, chunkSize := |plainText|, header.chunkSize;
      var k, start := 0, 0;
      SliceStartSteps(0, chunkSize);
      SliceExists(size, 0, chunkSize);
      assert Written(header, data, data, table, table, fileId, plainText, 0);
      hide SliceStart;
      hide SliceCount;
      hide OnlyChunks;
      hide Written;
      hide ChunkFileName;
      hide ChunkAad;
      hide NoncesBelow;
      while start < size
        invariant start == SliceStart(k, chunkSize) && k <= SliceCount(size, chunkSize)
        invariant start >= size ==> k == SliceCount(size, chunkSize)
        invariant OnlyChunks(header, table, versions) && NoncesBelow(table, nextNonce)
        invariant Written(header, old(data), data, old(table), table, fileId, plainText, k)
        decreases size - start
      {
        ghost var dataBefore, tableBefore := data, table;
        var slice := plainText[start..Min(start + chunkSize, size)];
        var position := k % 0x1_0000_0000;
        var aad := ChunkAad(header, fileId, position, size, |slice|);
        var blob := Encrypt(slice, aad);
        data := data[ChunkFileName(fileId, position) := blob];
        OneMoreSlice(header, old(data), dataBefore, old(table), tableBefore, versions, fileId, plainText, k, blob);
        NextSlice(size, chunkSize, k);
        k, start := k + 1, start + chunkSize;
      }
    }

    /** Write one file under a fresh id: the map gains exactly this path, every blob is still a
        chunk of some file, and a directory that held the right chunks still does. */
    method WriteLogicalFile(path: string, plainText: Bytes, fileId: string) returns (r: Result<(), StoreError>)
      requires Bound() && IsUuid(fileId) && fileId !in versions
      modifies this
      ensures Bound()
      ensures r.Ok? <==> IsLogicalPath(path) && header.chunkSize > 0
      ensures r.Err? ==> unchanged(this)
      ensures r.Ok? ==> Contents() == old(Contents())[path := plainText]
      ensures r.Ok? ==> versions == old(versions)[fileId := plainText]
      ensures r.Ok? && old(Intact()) ==> Intact()
      ensures r.Ok? && old(Tidy()) && Fits(|plainText|, header.chunkSize) ==> Tidy()
    {
      hide IsIndexed;
      hide ContentsOf;
      hide OnlyChunks;
      hide IsIntact;
      hide IsTidy;
      hide Written;
      hide IsUuid;
      if !IsLogicalPath(path) {
        return Err(InvalidLogicalPath);
      }
      hide IsLogicalPath;
      if header.chunkSize == 0 {
        return Err(ChunkSizeIsZero);
      }
      RemoveExisting(path);
      ghost var contents := Contents();
      assert path !in contents;
      NewVersionKeepsChunks(header, table, versions, fileId, plainText);
      ghost var data0, table0, versions0 := data, table, versions;
      var entry := IndexEntry(fileId, path, |plainText|);
      versions := versions[fileId := plainText];
      WriteChunks(fileId, plainText);
      AddingIsSafe(header, index, data0, data, table0, table, versions0, entry, plainText,
                   SliceCount(|plainText|, header.chunkSize));
      index := index + [entry];
      assert contents[path := plainText] == old(Contents())[path := plainText];
      return Ok(());
    }
  }

  lemma RemovalIsSafe(h: VaultHeader, index: seq<IndexEntry>, data: map<string, Blob>,
                      table: map<Blob, Sealed>, versions: map<string, Bytes>, path: string)
    requires IsBound(h, index, table, versions) && h.chunkSize > 0
    ensures IsIndexed(Without(index, path), versions)
    ensures ContentsOf(Without(index, path), versions) == ContentsOf(index, versions) - {path}
    ensures Find(index, path).Some? ==>
      var e := Find(index, path).value;
      var data' := WithoutChunks(data, e.fileId, ChunkCount(e.size, h.chunkSize));
      && (IsIntact(h, index, data, table, versions) ==> IsIntact(h, Without(index, path), data', table, versions))
      && (IsTidy(h, index, data) ==> IsTidy(h, Without(index, path), data'))
  {
    ContentsWithout(index, versions, path);
    hide ContentsOf;
    hide OnlyChunks;
    hide AllInPlace;
    hide WithoutChunks;
    hide SameElsewhere;
    hide IsTidy;
    hide IsUuid;
    if Find(index, path).Some? {
      var e := Find(index, path).value;
      var data' := WithoutChunks(data, e.fileId, ChunkCount(e.size, h.chunkSize));
      OnlyOneOfPath(index, e);
      ElsewhereWithout(data, e.fileId, ChunkCount(e.size, h.chunkSize));
      hide Unique;
      if IsIntact(h, index, data, table, versions) {
        forall o | o in Without(index, path) ensures AllInPlace(h, data', table, o.fileId, versions[o.fileId]) {
          OthersStayInPlace(h, data, data', table, table, e.fileId, o.fileId, versions[o.fileId]);
        }
      }
      if IsTidy(h, index, data) {
        TidyWithout(h, index, data, e, versions);
      }
    }
  }

  lemma ElsewhereWithout(data: map<string, Blob>, fileId: string, count: nat)
    ensures SameElsewhere(data, WithoutChunks(data, fileId, count), fileId)
  {
    hide ChunkFileName;
  }

  lemma {:induction false} NothingWithout(index: seq<IndexEntry>, path: string)
    requires Find(index, path).None?
    ensures Without(index, path) == index
  {
    if index != [] {
      NothingWithout(index[1..], path);
    }
  }
}
