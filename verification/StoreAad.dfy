/** The associated data of `contents/header.rs`: what every sealed blob of a vault is bound to. */
module StoreAad {
  import opened Wrappers
  import opened Json

  datatype VaultHeader = VaultHeader(
    formatVersion: nat,
    contentIdentity: string,
    kdfAlg: string,
    memoryKib: nat,
    timeCost: nat,
    parallelism: nat,
    saltB64: string,
    aead: string,
    nameCipher: string,
    chunkSize: nat,
    wrappedMasterKeyB64: string)

  datatype Kind = Wrap | Index | Chunk {
    function Name(): string {
      match this
      case Wrap => "wrap"
      case Index => "index"
      case Chunk => "chunk"
    }
  }

  datatype ChunkId = ChunkId(fileId: string, chunkIndex: nat, fileSize: nat, chunkLen: nat)

  /** The fields in declaration order; the chunk fields are left out when there is no chunk. */
  function AadFields(h: VaultHeader, kind: Kind, chunk: Option<ChunkId>): seq<Field> {
    [ Field("v", Num(h.formatVersion)), Field("cid", Str(h.contentIdentity)), Field("kdf", Str(h.kdfAlg)),
      Field("m", Num(h.memoryKib)), Field("t", Num(h.timeCost)), Field("p", Num(h.parallelism)),
      Field("salt", Str(h.saltB64)), Field("aead", Str(h.aead)), Field("names", Str(h.nameCipher)),
      Field("chunk", Num(h.chunkSize)), Field("kind", Str(kind.Name())) ]
    + match chunk
      case None => []
      case Some(c) =>
        [ Field("file_id", Str(c.fileId)), Field("chunk_index", Num(c.chunkIndex)),
          Field("file_size", Num(c.fileSize)), Field("chunk_len", Num(c.chunkLen)) ]
  }

  function StoreAadBytes(h: VaultHeader, kind: Kind, chunk: Option<ChunkId>): string {
    EncodeObject(AadFields(h, kind, chunk))
  }

  function WrapAad(h: VaultHeader): string {
    StoreAadBytes(h, Wrap, None)
  }

  function IndexAad(h: VaultHeader): string {
    StoreAadBytes(h, Index, None)
  }

  function ChunkAad(h: VaultHeader, fileId: string, chunkIndex: nat, fileSize: nat, chunkLen: nat): string {
    StoreAadBytes(h, Chunk, Some(ChunkId(fileId, chunkIndex, fileSize, chunkLen)))
  }

  /** The associated data binds every field but the wrapped key: equal bytes mean equal header,
      kind and chunk position, whatever characters the strings hold. */
  lemma AadIsInjective(h: VaultHeader, k: Kind, c: Option<ChunkId>, h': VaultHeader, k': Kind, c': Option<ChunkId>)
    ensures StoreAadBytes(h, k, c) == StoreAadBytes(h', k', c')
       <==> k == k' && c == c' && h.(wrappedMasterKeyB64 := "") == h'.(wrappedMasterKeyB64 := "")
  {
    var f, g := AadFields(h, k, c), AadFields(h', k', c');
    if StoreAadBytes(h, k, c) == StoreAadBytes(h', k', c') {
      ObjectIsInjective(f, g);
      assert forall i :: 0 <= i < 11 ==> f[i] == g[i];
      assert f[0] == g[0] && f[1] == g[1] && f[2] == g[2] && f[3] == g[3] && f[4] == g[4] && f[5] == g[5];
      assert f[6] == g[6] && f[7] == g[7] && f[8] == g[8] && f[9] == g[9] && f[10] == g[10];
      KindNamesDiffer(k, k');
      if c.Some? && c'.Some? {
        assert f[11] == g[11] && f[12] == g[12] && f[13] == g[13] && f[14] == g[14];
      } else {
        assert |f| == |g|;
      }
    }
  }

  lemma KindNamesDiffer(k: Kind, k': Kind)
    requires k.Name() == k'.Name()
    ensures k == k'
  {
    assert "wrap"[0] == 'w' && "index"[0] == 'i' && "chunk"[0] == 'c';
  }

  /** Chunk data of one vault determines file, position, file size and length, and never equals
      wrap or index data, even of another vault. */
  lemma ChunkAadDetermines(h: VaultHeader, a: ChunkId, h': VaultHeader, b: ChunkId)
    ensures (ChunkAad(h, a.fileId, a.chunkIndex, a.fileSize, a.chunkLen)
             == ChunkAad(h', b.fileId, b.chunkIndex, b.fileSize, b.chunkLen)) ==> a == b
    ensures ChunkAad(h, a.fileId, a.chunkIndex, a.fileSize, a.chunkLen) != WrapAad(h')
    ensures ChunkAad(h, a.fileId, a.chunkIndex, a.fileSize, a.chunkLen) != IndexAad(h')
    ensures WrapAad(h) != IndexAad(h')
  {
    AadIsInjective(h, Chunk, Some(a), h', Chunk, Some(b));
    AadIsInjective(h, Chunk, Some(a), h', Wrap, None);
    AadIsInjective(h, Chunk, Some(a), h', Index, None);
    AadIsInjective(h, Wrap, None, h', Index, None);
  }
}
