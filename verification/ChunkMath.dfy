/** Cutting a file into chunks: the arithmetic of `contents/chunk.rs` with its 32-bit casts. */
module ChunkMath {
  type Bytes = seq<bv8>

  function Min(a: nat, b: nat): nat {
    if a < b then a else b
  }

  function DivCeil(n: nat, d: nat): nat
    requires d > 0
  {
    n / d + if n % d == 0 then 0 else 1
  }

  /** `chunk_count`: the quotient is cast to 32 bits. */
  function ChunkCount(fileSize: nat, chunkSize: nat): nat {
    if fileSize == 0 then 0 else DivCeil(fileSize, if chunkSize == 0 then 1 else chunkSize) % 0x1_0000_0000
  }

  /** `chunk_plain_len`: the product is taken in 64 bits, the result cast to 32. */
  function ChunkPlainLen(fileSize: nat, chunkIndex: nat, chunkSize: nat): nat {
    var start := SliceStart(chunkIndex, chunkSize) % 0x1_0000_0000_0000_0000;
    if start >= fileSize then 0 else Min(fileSize - start, chunkSize) % 0x1_0000_0000
  }

  /** The pieces `plaintext.chunks(chunk_size)` yields. */
  function SliceCount(fileSize: nat, chunkSize: nat): nat
    requires chunkSize > 0
  {
    DivCeil(fileSize, chunkSize)
  }

  function SliceStart(k: nat, chunkSize: nat): nat {
    k * chunkSize
  }

  function Slice(data: Bytes, k: nat, chunkSize: nat): (s: Bytes)
    requires SliceStart(k, chunkSize) <= |data|
    ensures |s| == Min(chunkSize, |data| - SliceStart(k, chunkSize))
  {
    data[SliceStart(k, chunkSize)..Min(SliceStart(k, chunkSize) + chunkSize, |data|)]
  }

  lemma SliceStartSteps(k: nat, chunkSize: nat)
    ensures SliceStart(k + 1, chunkSize) == SliceStart(k, chunkSize) + chunkSize
    ensures SliceStart(0, chunkSize) == 0
  {}

  lemma {:induction false} SliceStartGrows(j: nat, k: nat, chunkSize: nat)
    requires j < k
    ensures SliceStart(j, chunkSize) + chunkSize <= SliceStart(k, chunkSize)
  {
    hide SliceStart;
    SliceStartSteps(k - 1, chunkSize);
    if j < k - 1 {
      SliceStartGrows(j, k - 1, chunkSize);
    }
  }

  /** There is a slice `k` exactly when its first byte exists. */
  lemma SliceExists(fileSize: nat, k: nat, chunkSize: nat)
    requires chunkSize > 0
    ensures k < SliceCount(fileSize, chunkSize) <==> SliceStart(k, chunkSize) < fileSize
  {
    var q := fileSize / chunkSize;
    assert fileSize == chunkSize * q + fileSize % chunkSize;
    assert chunkSize * q == SliceStart(q, chunkSize);
    hide SliceStart;
    if k < q {
      SliceStartGrows(k, q, chunkSize);
    } else if q < k {
      SliceStartGrows(q, k, chunkSize);
    }
  }

  lemma ProductGrows(a: nat, c: nat, b: nat)
    requires a <= c
    ensures a * b <= c * b
  {
    assert c * b == a * b + (c - a) * b;
  }

  lemma StartBound(a: nat, b: nat)
    requires a < 0x1_0000_0000 && b < 0x1_0000_0000
    ensures SliceStart(a, b) < 0x1_0000_0000_0000_0000
  {
    ProductGrows(a, 0xFFFF_FFFF, b);
  }

  /** The 64-bit product of two 32-bit numbers is exact. */
  lemma ProductFits(a: nat, b: nat)
    requires a < 0x1_0000_0000 && b < 0x1_0000_0000
    ensures SliceStart(a, b) % 0x1_0000_0000_0000_0000 == SliceStart(a, b)
  {
    StartBound(a, b);
    hide SliceStart;
  }

  /** The casts lose nothing exactly while the file has fewer than 2^32 slices; the length of a
      chunk is always the length of its slice. */
  lemma ChunkArithmeticIsExact(fileSize: nat, chunkSize: nat)
    requires 0 < chunkSize < 0x1_0000_0000
    ensures ChunkCount(fileSize, chunkSize) == SliceCount(fileSize, chunkSize) % 0x1_0000_0000
    ensures ChunkCount(fileSize, chunkSize) == SliceCount(fileSize, chunkSize)
       <==> fileSize <= SliceStart(0xFFFF_FFFF, chunkSize)
  {
    SliceExists(fileSize, 0xFFFF_FFFF, chunkSize);
    hide SliceStart;
    hide SliceCount;
    assert fileSize == 0 ==> SliceCount(fileSize, chunkSize) == 0 by {
      SliceStartSteps(0, chunkSize);
      SliceExists(fileSize, 0, chunkSize);
    }
    CountIsCastCount(fileSize, chunkSize);
  }

  lemma CountIsCastCount(fileSize: nat, chunkSize: nat)
    requires chunkSize > 0
    ensures ChunkCount(fileSize, chunkSize) == SliceCount(fileSize, chunkSize) % 0x1_0000_0000
  {
    if fileSize == 0 {
      SliceStartSteps(0, chunkSize);
      SliceExists(fileSize, 0, chunkSize);
    }
  }

  lemma PlainLen(fileSize: nat, k: nat, chunkSize: nat)
    requires 0 < chunkSize < 0x1_0000_0000 && k < 0x1_0000_0000
    ensures var start := SliceStart(k, chunkSize);
            ChunkPlainLen(fileSize, k, chunkSize) == if start >= fileSize then 0 else Min(fileSize - start, chunkSize)
  {
    ProductFits(k, chunkSize);
    hide SliceStart;
  }

  lemma PlainLenIsSliceLength(data: Bytes, k: nat, chunkSize: nat)
    requires 0 < chunkSize < 0x1_0000_0000 && k < 0x1_0000_0000
    requires SliceStart(k, chunkSize) <= |data|
    ensures ChunkPlainLen(|data|, k, chunkSize) == |Slice(data, k, chunkSize)|
  {
    PlainLen(|data|, k, chunkSize);
    hide ChunkPlainLen;
    hide SliceStart;
  }

  ghost function SumOfLengths(fileSize: nat, chunkSize: nat, n: nat): nat {
    if n == 0 then 0 else SumOfLengths(fileSize, chunkSize, n - 1) + ChunkPlainLen(fileSize, n - 1, chunkSize)
  }

  /** The first `n` chunk lengths add up to the first `n` slices, cut off at the end of the file. */
  lemma {:induction false} LengthsAddUp(fileSize: nat, chunkSize: nat, n: nat)
    requires 0 < chunkSize < 0x1_0000_0000 && n <= 0x1_0000_0000
    ensures SumOfLengths(fileSize, chunkSize, n) == Min(SliceStart(n, chunkSize), fileSize)
  {
    hide ChunkPlainLen;
    hide SliceStart;
    if n > 0 {
      LengthsAddUp(fileSize, chunkSize, n - 1);
      SliceStartSteps(n - 1, chunkSize);
      PlainLen(fileSize, n - 1, chunkSize);
    } else {
      SliceStartSteps(0, chunkSize);
    }
  }

  /** The chunk lengths of a file add up to its size exactly while no cast loses bits. */
  lemma ChunkLengthsSumToFileSize(fileSize: nat, chunkSize: nat)
    requires 0 < chunkSize < 0x1_0000_0000
    ensures SumOfLengths(fileSize, chunkSize, ChunkCount(fileSize, chunkSize)) == fileSize
       <==> fileSize <= SliceStart(0xFFFF_FFFF, chunkSize)
  {
    var n := ChunkCount(fileSize, chunkSize);
    ChunkArithmeticIsExact(fileSize, chunkSize);
    LengthsAddUp(fileSize, chunkSize, n);
    SliceExists(fileSize, n, chunkSize);
    hide SliceStart;
    hide SumOfLengths;
    hide SliceCount;
    hide ChunkCount;
  }
}
