/**
 * How a file is cut into slices for transfer (public/js/filesharing.js):
 * slices of `chunkSize` = 16384 bytes, numbered 0 .. total-1, where total is
 * `Math.ceil(size / chunkSize)`.  Dividing a size below 2^53 by a power of two
 * is exact in floating point, so that ceiling is the integer ceiling below.
 */
module Chunking {
  import opened Base64

  const ChunkSize: nat := 16384

  /** `maxFileSize`: 100 MiB. */
  const MaxFileSize: nat := 100 * 1024 * 1024

  function CeilDiv(n: nat, d: nat): (q: nat)
    requires d > 0
    ensures q * d >= n && (q == 0 || (q - 1) * d < n)
  {
    (n + d - 1) / d
  }

  /** `Math.ceil(size / chunkSize)`. */
  function TotalChunks(size: nat): nat {
    CeilDiv(size, ChunkSize)
  }

  function Min(a: int, b: int): int {
    if a <= b then a else b
  }

  /** Slice i of the file: `file.slice(i * chunkSize, Math.min(i * chunkSize + chunkSize, file.size))`. */
  function Slice(file: seq<Byte>, i: nat): seq<Byte>
    requires i < TotalChunks(|file|)
  {
    file[i * ChunkSize .. Min(i * ChunkSize + ChunkSize, |file|)]
  }

  /** All slices in index order. */
  function Split(file: seq<Byte>): seq<seq<Byte>> {
    seq(TotalChunks(|file|), i requires 0 <= i < TotalChunks(|file|) => Slice(file, i))
  }

  function Concat(parts: seq<seq<Byte>>): seq<Byte> {
    if parts == [] then [] else Concat(parts[..|parts| - 1]) + parts[|parts| - 1]
  }

  // ---------------------------------------------------------------- properties

  /** Every slice holds between 1 and 16384 bytes, and every slice but the last holds exactly 16384. */
  lemma SliceSizes(file: seq<Byte>, i: nat)
    requires i < TotalChunks(|file|)
    ensures 0 < |Slice(file, i)| <= ChunkSize
    ensures i < TotalChunks(|file|) - 1 ==> |Slice(file, i)| == ChunkSize
    ensures i == TotalChunks(|file|) - 1 ==> |Slice(file, i)| == |file| - i * ChunkSize
  {
    var n := TotalChunks(|file|);
    assert (n - 1) * ChunkSize < |file| <= n * ChunkSize;
    assert i * ChunkSize <= (n - 1) * ChunkSize;
    if i < n - 1 {
      assert (i + 1) * ChunkSize <= (n - 1) * ChunkSize;
    }
  }

  lemma {:induction false} ConcatPrefix(file: seq<Byte>, k: nat)
    requires k <= TotalChunks(|file|)
    ensures Concat(Split(file)[..k]) == file[..Min(k * ChunkSize, |file|)]
  {
    if k > 0 {
      var parts := Split(file)[..k];
      assert parts[..k - 1] == Split(file)[..k - 1];
      ConcatPrefix(file, k - 1);
      var n := TotalChunks(|file|);
      assert (k - 1) * ChunkSize < |file| by {
        assert (n - 1) * ChunkSize < |file|;
        assert (k - 1) * ChunkSize <= (n - 1) * ChunkSize;
      }
      assert Min((k - 1) * ChunkSize, |file|) == (k - 1) * ChunkSize;
      assert parts[k - 1] == Slice(file, k - 1);
      assert file[..(k - 1) * ChunkSize] + file[(k - 1) * ChunkSize .. Min(k * ChunkSize, |file|)]
          == file[..Min(k * ChunkSize, |file|)];
    }
  }

  /** The slices, concatenated in index order, give the file back. */
  lemma SplitConcat(file: seq<Byte>)
    ensures |Split(file)| == TotalChunks(|file|)
    ensures Concat(Split(file)) == file
  {
    var n := TotalChunks(|file|);
    ConcatPrefix(file, n);
    assert Split(file)[..n] == Split(file);
    assert Min(n * ChunkSize, |file|) == |file|;
  }

  /** The worked example: 40000 bytes make three slices of 16384, 16384 and 7232 bytes. */
  lemma FortyThousandBytes(file: seq<Byte>)
    requires |file| == 40000
    ensures TotalChunks(|file|) == 3
    ensures |Slice(file, 0)| == 16384 && |Slice(file, 1)| == 16384 && |Slice(file, 2)| == 7232
  {
  }

  /** A zero-byte file has no slices. */
  lemma EmptyFileNoSlices()
    ensures Split([]) == []
  {
  }
}
