/**
 * The browser's `FileSharing` object (public/js/filesharing.js): the send
 * loop that announces a file, streams its base64 slices and signals the end,
 * and the receive side that keeps one `fileChunks` entry per incoming
 * transfer and reassembles it when the completion signal arrives.
 */
module FileSharing {
  import opened Wrappers
  import opened Base64
  import opened Chunking
  import opened Protocol
  import opened Keys

  /** The largest array index of JavaScript: 2^32 - 2. */
  const MaxArrayIndex := 0xFFFF_FFFE

  /**
   * A JavaScript array written only by key (`chunks[chunkIndex] = chunk`):
   * its `length` is one past the highest index written and the slots not
   * written are holes.  A key that is no array index (a negative number, or
   * one above 2^32 - 2) becomes an ordinary property, which neither `length`
   * nor `map` sees, so it is not kept.
   */
  datatype SparseArray = SparseArray(length: nat, slots: map<nat, string>)
  {
    predicate Valid() {
      forall k :: k in slots ==> k < length
    }

    function Store(i: int, v: string): (a: SparseArray)
      requires Valid()
      ensures a.Valid()
      ensures 0 <= i <= MaxArrayIndex ==>
        a.slots == slots[i as nat := v] && a.length == if i < length then length else i + 1
      ensures !(0 <= i <= MaxArrayIndex) ==> a == this
    {
      if 0 <= i <= MaxArrayIndex then SparseArray(if i < length then length else i + 1, slots[i as nat := v])
      else this
    }
  }

  /** One `fileChunks[fileId]` entry. */
  datatype Transfer = Transfer(info: FileInfo, chunks: SparseArray, receivedChunks: nat, totalChunks: int, completed: bool)

  /** What this client emits on its socket. */
  datatype Emit =
    | FileStart(roomId: RoomId, fileInfo: FileInfo)
    | FileChunk(roomId: RoomId, fileId: FileId, chunk: string, chunkIndex: nat, totalChunks: nat)
    | FileComplete(roomId: RoomId, fileId: FileId)
    | FileReject(target: SocketId, fileId: FileId, reason: string)

  /** What the user-interface callbacks are handed. */
  datatype Notice =
    | ReceiveStarted(fileInfo: FileInfo, senderId: SocketId)
    | Received(fileInfo: FileInfo, bytes: seq<Byte>, senderId: SocketId)
    | Failed(fileId: FileId, error: string)

  datatype SendResult = Sent(fileId: FileId) | TooLarge(message: string)

  const TooLargeReason := "File too large"
  const TooLargeMessage := "File too large. Maximum size is 100MB"
  const ProcessingFailed := "Failed to process received file"

  /** The bytes a hole contributes: the Blob constructor turns `undefined` into the string "undefined". */
  const UndefinedBytes: seq<Byte> := [117, 110, 100, 101, 102, 105, 110, 101, 100]

  // ---------------------------------------------------------------- receive-side specification

  /**
   * `Math.ceil(fileSize / chunkSize)` for any integer size: the least e with
   * e * 16384 >= size.  A negative size gives zero or fewer expected chunks.
   */
  function ExpectedChunks(size: int): (e: int)
    ensures e * ChunkSize >= size > (e - 1) * ChunkSize
    ensures size >= 0 ==> e == TotalChunks(size)
  {
    if size >= 0 then TotalChunks(size)
    else
      var q := (-size) / ChunkSize;
      assert q * ChunkSize <= -size < (q + 1) * ChunkSize;
      -q
  }

  /** The entry `prepareFileReceive` creates. */
  function Prepared(info: FileInfo): (t: Transfer)
    ensures t.chunks.Valid()
  {
    Transfer(info, SparseArray(0, map[]), 0, ExpectedChunks(info.fileSize), false)
  }

  /** The entry after `receiveFileChunk` stores one chunk. */
  function WithChunk(t: Transfer, chunk: string, chunkIndex: int, totalChunks: int): (u: Transfer)
    requires t.chunks.Valid()
    ensures u.chunks.Valid()
  {
    t.(chunks := t.chunks.Store(chunkIndex, chunk), receivedChunks := t.receivedChunks + 1, totalChunks := totalChunks)
  }

  /** The bytes one chunk contributes: its decoding, or nothing when `atob` throws. */
  function DecodeOrEmpty(chunk: string): seq<Byte> {
    match ForgivingDecode(chunk)
    case Some(bs) => bs
    case None => []
  }

  function Piece(a: SparseArray, i: nat): seq<Byte> {
    if i in a.slots then DecodeOrEmpty(a.slots[i]) else UndefinedBytes
  }

  /** The first k pieces of the chunk array, in index order. */
  function AssembledUpTo(a: SparseArray, k: nat): seq<Byte> {
    if k == 0 then [] else AssembledUpTo(a, k - 1) + Piece(a, k - 1)
  }

  /** The file `completeFileReceive` builds: every slot 0 .. length-1 in index order. */
  function Assembled(a: SparseArray): seq<Byte> {
    AssembledUpTo(a, a.length)
  }

  /**
   * The `chunks.map(_base64ToArrayBuffer)` pass and the Blob built from it:
   * every slot from 0 to length-1 in index order, a chunk that `atob` refuses
   * contributing no bytes and a hole the text "undefined".
   */
  method AssembleChunks(chunks: SparseArray) returns (bytes: seq<Byte>)
    ensures bytes == Assembled(chunks)
  {
    bytes := [];
    var i := 0;
    while i < chunks.length
      invariant 0 <= i <= chunks.length
      invariant bytes == AssembledUpTo(chunks, i)
    {
      var piece := UndefinedBytes;
      if i in chunks.slots {
        var decoded := Base64ToArrayBuffer(chunks.slots[i]);
        piece := if decoded.Some? then decoded.value else [];
      }
      assert piece == Piece(chunks, i);
      bytes := bytes + piece;
      i := i + 1;
    }
  }

  /** The 'file-chunk' message for slice i. */
  function ChunkEmit(roomId: RoomId, fileId: FileId, file: seq<Byte>, i: nat): Emit
    requires i < TotalChunks(|file|)
  {
    FileChunk(roomId, fileId, Encode(Slice(file, i)), i, TotalChunks(|file|))
  }

  /** The 'file-chunk' messages for slices 0 .. k-1. */
  function ChunkEmits(roomId: RoomId, fileId: FileId, file: seq<Byte>, k: nat): (e: seq<Emit>)
    requires k <= TotalChunks(|file|)
    ensures |e| == k
  {
    if k == 0 then [] else ChunkEmits(roomId, fileId, file, k - 1) + [ChunkEmit(roomId, fileId, file, k - 1)]
  }

  lemma {:induction false} ChunkEmitsAt(roomId: RoomId, fileId: FileId, file: seq<Byte>, k: nat)
    requires k <= TotalChunks(|file|)
    ensures forall j :: 0 <= j < k ==> ChunkEmits(roomId, fileId, file, k)[j] == ChunkEmit(roomId, fileId, file, j)
  {
    if k > 0 {
      ChunkEmitsAt(roomId, fileId, file, k - 1);
    }
  }

  /** The bytes a receiver recovers from one emitted message: the decoded payload of a 'file-chunk'. */
  function ChunkPayload(m: Emit): seq<Byte> {
    if m.FileChunk? then DecodeOrEmpty(m.chunk) else []
  }

  /** What `sendFile` emits for a file that passes the size check. */
  function SendEmits(roomId: RoomId, info: FileInfo, file: seq<Byte>): seq<Emit> {
    [FileStart(roomId, info)] + ChunkEmits(roomId, info.fileId, file, TotalChunks(|file|)) + [FileComplete(roomId, info.fileId)]
  }

  class FileSharing {
    const roomId: RoomId
    var fileChunks: map<FileId, Transfer>
    var outbox: seq<Emit>

    ghost predicate Valid()
      reads this
    {
      forall id :: id in fileChunks ==> fileChunks[id].chunks.Valid()
    }

    constructor (roomId: RoomId)
      ensures Valid()
      ensures this.roomId == roomId && fileChunks == map[] && outbox == []
    {
      this.roomId := roomId;
      fileChunks := map[];
      outbox := [];
    }

    /**
     * `prepareFileReceive`: a declared size above 100 MiB is answered with one
     * 'file-reject' to the sender and no entry; otherwise a fresh entry is
     * stored under the file id, and `notice` is what the start callback, when
     * one is registered, is given.  A file id that is an inherited name
     * becomes an own entry like any other.
     */
    method PrepareFileReceive(senderId: SocketId, fileInfo: FileInfo) returns (notice: Option<Notice>)
      requires Valid()
      modifies this
      ensures Valid()
      ensures fileInfo.fileSize > MaxFileSize ==>
        && fileChunks == old(fileChunks)
        && outbox == old(outbox) + [FileReject(senderId, fileInfo.fileId, TooLargeReason)]
        && notice == None
      ensures fileInfo.fileSize <= MaxFileSize ==>
        && fileChunks == old(fileChunks)[fileInfo.fileId := Prepared(fileInfo)]
        && outbox == old(outbox)
        && notice == Some(ReceiveStarted(fileInfo, senderId))
    {
      if fileInfo.fileSize > MaxFileSize {
        outbox := outbox + [FileReject(senderId, fileInfo.fileId, TooLargeReason)];
        return None;
      }
      fileChunks := fileChunks[fileInfo.fileId := Prepared(fileInfo)];
      notice := Some(ReceiveStarted(fileInfo, senderId));
    }

    /**
     * `receiveFileChunk`: an unknown file id is ignored; otherwise the chunk is
     * stored at its index, the received count goes up by one (also for an
     * index already seen) and the total is replaced by the one on the chunk.
     * An inherited name passes the guard and throws at `chunks[chunkIndex]`.
     */
    method ReceiveFileChunk(senderId: SocketId, fileId: FileId, chunk: string, chunkIndex: int, totalChunks: int)
      returns (r: Outcome)
      requires Valid()
      modifies this
      ensures Valid()
      ensures outbox == old(outbox)
      ensures Get(old(fileChunks), fileId).Undefined? ==> r == Returned && fileChunks == old(fileChunks)
      ensures Get(old(fileChunks), fileId).Inherited? ==> r == Threw && fileChunks == old(fileChunks)
      ensures fileId in old(fileChunks) ==>
        && r == Returned
        && fileChunks == old(fileChunks)[fileId := WithChunk(old(fileChunks)[fileId], chunk, chunkIndex, totalChunks)]
    {
      match Get(fileChunks, fileId)
      case Undefined =>
        r := Returned;
      case Inherited =>
        r := Threw;
      case Own(t) =>
        fileChunks := fileChunks[fileId := WithChunk(t, chunk, chunkIndex, totalChunks)];
        r := Returned;
    }

    /**
     * `completeFileReceive`: nothing happens for an unknown id or while fewer
     * chunks have been counted than the current total; otherwise the chunk
     * array is decoded slot by slot and joined, the entry is marked completed
     * and the complete callback is given the bytes.  An inherited name passes
     * both checks (`undefined < undefined` is false), throws at `chunks.map`
     * inside the `try`, and the callback is given the failure instead.
     */
    method CompleteFileReceive(senderId: SocketId, fileId: FileId) returns (notice: Option<Notice>)
      requires Valid()
      modifies this
      ensures Valid()
      ensures outbox == old(outbox)
      ensures Get(old(fileChunks), fileId).Undefined? ==> fileChunks == old(fileChunks) && notice == None
      ensures Get(old(fileChunks), fileId).Inherited? ==>
        fileChunks == old(fileChunks) && notice == Some(Failed(fileId, ProcessingFailed))
      ensures fileId in old(fileChunks) && old(fileChunks)[fileId].receivedChunks < old(fileChunks)[fileId].totalChunks ==>
        fileChunks == old(fileChunks) && notice == None
      ensures fileId in old(fileChunks) && old(fileChunks)[fileId].receivedChunks >= old(fileChunks)[fileId].totalChunks ==>
        var t := old(fileChunks)[fileId];
        && fileChunks == old(fileChunks)[fileId := t.(completed := true)]
        && notice == Some(Received(t.info, Assembled(t.chunks), senderId))
    {
      match Get(fileChunks, fileId)
      case Undefined =>
        notice := None;
      case Inherited =>
        notice := Some(Failed(fileId, ProcessingFailed));
      case Own(fileData) =>
        if fileData.receivedChunks < fileData.totalChunks {
          return None;
        }
        var bytes := AssembleChunks(fileData.chunks);
        fileChunks := fileChunks[fileId := fileData.(completed := true)];
        notice := Some(Received(fileData.info, bytes, senderId));
    }

    /** The 'file-reject' listener: the complete callback is given a failure carrying the receiver's reason. */
    method OnFileReject(senderId: SocketId, fileId: FileId, reason: string) returns (notice: Option<Notice>)
      ensures notice == Some(Failed(fileId, reason))
    {
      notice := Some(Failed(fileId, reason));
    }

    /**
     * `sendFile`: a file above 100 MiB is refused before anything is emitted;
     * otherwise 'file-start', then one 'file-chunk' per slice in index order,
     * then 'file-complete'.
     */
    method SendFile(file: seq<Byte>, fileName: string, fileType: string, fileId: FileId) returns (r: SendResult)
      modifies this
      ensures fileChunks == old(fileChunks)
      ensures |file| > MaxFileSize ==> r == TooLarge(TooLargeMessage) && outbox == old(outbox)
      ensures |file| <= MaxFileSize ==>
        r == Sent(fileId) && outbox == old(outbox) + SendEmits(roomId, FileInfo(fileId, fileName, |file|, fileType), file)
    {
      if |file| > MaxFileSize {
        return TooLarge(TooLargeMessage);
      }
      var fileInfo := FileInfo(fileId, fileName, |file|, fileType);
      outbox := outbox + [FileStart(roomId, fileInfo)];
      ghost var started := outbox;
      EmitChunks(file, fileId);
      ghost var chunks := ChunkEmits(roomId, fileId, file, TotalChunks(|file|));
      outbox := outbox + [FileComplete(roomId, fileId)];
      calc {
        outbox;
        started + chunks + [FileComplete(roomId, fileId)];
        old(outbox) + ([FileStart(roomId, fileInfo)] + chunks + [FileComplete(roomId, fileId)]);
      }
      r := Sent(fileId);
    }

    /** The for-loop of `sendFile`: one 'file-chunk' per slice, indices 0 .. total-1 in order. */
    method EmitChunks(file: seq<Byte>, fileId: FileId)
      modifies this`outbox
      ensures outbox == old(outbox) + ChunkEmits(roomId, fileId, file, TotalChunks(|file|))
    {
      var totalChunks := TotalChunks(|file|);
      for i := 0 to totalChunks
        invariant outbox == old(outbox) + ChunkEmits(roomId, fileId, file, i)
      {
        var base64Chunk := ReadChunkAsBase64(Slice(file, i));
        outbox := outbox + [FileChunk(roomId, fileId, base64Chunk, i, totalChunks)];
      }
    }
  }

  // ---------------------------------------------------------------- properties

  /**
   * The emissions of one send: 'file-start' first, 'file-complete' last, and
   * between them exactly ceil(size / 16384) chunks numbered 0, 1, ... in
   * order, all carrying the same total.
   */
  lemma SendEmitsShape(roomId: RoomId, info: FileInfo, file: seq<Byte>)
    ensures var e := SendEmits(roomId, info, file); var n := TotalChunks(|file|);
      && |e| == n + 2
      && e[0] == FileStart(roomId, info)
      && e[n + 1] == FileComplete(roomId, info.fileId)
      && forall j :: 1 <= j <= n ==> e[j].FileChunk? && e[j].chunkIndex == j - 1 && e[j].totalChunks == n
                                     && e[j].fileId == info.fileId
  {
    ChunkEmitsAt(roomId, info.fileId, file, TotalChunks(|file|));
  }

  /** Decoding the chunk payloads of one send and joining them in emission order gives back the file. */
  lemma SendRoundTrip(roomId: RoomId, info: FileInfo, file: seq<Byte>)
    ensures var e := SendEmits(roomId, info, file); var n := TotalChunks(|file|);
      |e| == n + 2 && Concat(seq(n, j requires 0 <= j < n => ChunkPayload(e[j + 1]))) == file
  {
    var e := SendEmits(roomId, info, file);
    var n := TotalChunks(|file|);
    ChunkEmitsAt(roomId, info.fileId, file, n);
    var payloads := seq(n, j requires 0 <= j < n => ChunkPayload(e[j + 1]));
    forall j | 0 <= j < n ensures payloads[j] == Split(file)[j] {
      assert e[j + 1] == ChunkEmit(roomId, info.fileId, file, j);
      DecodeEncode(Slice(file, j));
    }
    assert payloads == Split(file);
    SplitConcat(file);
  }

  /** The receiver's state after the chunks of `file` arrive in the index order `order`. */
  function ReceiveInOrder(t: Transfer, file: seq<Byte>, order: seq<nat>): (u: Transfer)
    requires t.chunks.Valid()
    requires forall j :: 0 <= j < |order| ==> order[j] < TotalChunks(|file|)
    ensures u.chunks.Valid()
  {
    if order == [] then t
    else
      var last := order[|order| - 1];
      WithChunk(ReceiveInOrder(t, file, order[..|order| - 1]), Encode(Slice(file, last)), last, TotalChunks(|file|))
  }

  /** A file the receiver accepts has at most 6400 chunks, so every chunk number is an array index. */
  lemma AcceptedChunkCount(size: nat)
    requires size <= MaxFileSize
    ensures TotalChunks(size) <= 6400 <= MaxArrayIndex
  {
  }

  lemma {:induction false} ReceiveInOrderState(info: FileInfo, file: seq<Byte>, order: seq<nat>)
    requires |file| <= MaxFileSize
    requires forall j :: 0 <= j < |order| ==> order[j] < TotalChunks(|file|)
    ensures var u := ReceiveInOrder(Prepared(info), file, order);
      && u.info == info
      && u.receivedChunks == |order|
      && (order != [] ==> u.totalChunks == TotalChunks(|file|))
      && u.chunks.length <= TotalChunks(|file|)
      && (forall k :: k in u.chunks.slots <==> k in order)
      && (forall k :: k in u.chunks.slots ==> k < TotalChunks(|file|) && u.chunks.slots[k] == Encode(Slice(file, k)))
  {
    if order != [] {
      AcceptedChunkCount(|file|);
      ReceiveInOrderState(info, file, order[..|order| - 1]);
      forall k ensures k in order <==> k in order[..|order| - 1] || k == order[|order| - 1] {
        assert order == order[..|order| - 1] + [order[|order| - 1]];
      }
    }
  }

  lemma {:induction false} AssembledSlices(a: SparseArray, file: seq<Byte>, k: nat)
    requires k <= TotalChunks(|file|)
    requires forall i :: 0 <= i < k ==> i in a.slots && a.slots[i] == Encode(Slice(file, i))
    ensures AssembledUpTo(a, k) == Concat(Split(file)[..k])
  {
    if k > 0 {
      AssembledSlices(a, file, k - 1);
      DecodeEncode(Slice(file, k - 1));
      assert Split(file)[..k][..k - 1] == Split(file)[..k - 1];
    }
  }

  /**
   * A receiver that accepted the announcement of `file` and then got each of
   * its chunks exactly once, in ANY order, passes the count check and
   * reassembles exactly the bytes that were sent.
   */
  lemma ReceiveAnyOrderRoundTrip(info: FileInfo, file: seq<Byte>, order: seq<nat>)
    requires info.fileSize == |file| <= MaxFileSize
    requires |order| == TotalChunks(|file|)
    requires forall j :: 0 <= j < |order| ==> order[j] < TotalChunks(|file|)
    requires forall k :: 0 <= k < TotalChunks(|file|) ==> k in order
    ensures var u := ReceiveInOrder(Prepared(info), file, order);
      u.receivedChunks >= u.totalChunks && Assembled(u.chunks) == file
  {
    var n := TotalChunks(|file|);
    var u := ReceiveInOrder(Prepared(info), file, order);
    ReceiveInOrderState(info, file, order);
    if n > 0 {
      assert n - 1 in u.chunks.slots;
    }
    assert u.chunks.length == n;
    AssembledSlices(u.chunks, file, n);
    assert Split(file)[..n] == Split(file);
    SplitConcat(file);
  }

  /** The in-order arrival 0, 1, ..., n-1. */
  function Indices(n: nat): (order: seq<nat>)
    ensures |order| == n && forall j :: 0 <= j < n ==> order[j] == j
  {
    if n == 0 then [] else Indices(n - 1) + [n - 1]
  }

  lemma InOrderRoundTrip(info: FileInfo, file: seq<Byte>)
    requires info.fileSize == |file| <= MaxFileSize
    ensures Assembled(ReceiveInOrder(Prepared(info), file, Indices(TotalChunks(|file|))).chunks) == file
  {
    var n := TotalChunks(|file|);
    var inOrder := Indices(n);
    assert forall k :: 0 <= k < n ==> k in inOrder by {
      forall k | 0 <= k < n ensures k in inOrder {
        assert inOrder[k] == k;
      }
    }
    ReceiveAnyOrderRoundTrip(info, file, inOrder);
  }

  /** Arrival order does not matter: any permuted arrival reassembles the same bytes as in-order arrival. */
  lemma ArrivalOrderIrrelevant(info: FileInfo, file: seq<Byte>, order: seq<nat>)
    requires info.fileSize == |file| <= MaxFileSize
    requires |order| == TotalChunks(|file|)
    requires forall j :: 0 <= j < |order| ==> order[j] < TotalChunks(|file|)
    requires forall k :: 0 <= k < TotalChunks(|file|) ==> k in order
    ensures Assembled(ReceiveInOrder(Prepared(info), file, order).chunks)
         == Assembled(ReceiveInOrder(Prepared(info), file, Indices(TotalChunks(|file|))).chunks)
  {
    ReceiveAnyOrderRoundTrip(info, file, order);
    InOrderRoundTrip(info, file);
  }

  /** A chunk sent twice is counted twice: the count can reach the total while a slot is still a hole. */
  lemma DuplicateChunkInflatesCount(info: FileInfo, chunk: string)
    requires info.fileSize == 2 * ChunkSize
    ensures var t := WithChunk(WithChunk(Prepared(info), chunk, 0, 2), chunk, 0, 2);
      t.receivedChunks >= t.totalChunks && 1 !in t.chunks.slots && t.chunks.length == 1
  {
  }

  /**
   * A chunk numbered -1 is stored as an ordinary property but still counted:
   * for a one-chunk file it satisfies the count check, and the file
   * reassembles to nothing.
   */
  lemma NegativeIndexCompletesEmpty(info: FileInfo, chunk: string)
    requires 0 < info.fileSize <= ChunkSize
    ensures var t := WithChunk(Prepared(info), chunk, -1, 1);
      t.receivedChunks >= t.totalChunks && Assembled(t.chunks) == []
  {
  }

  /**
   * A negative declared size passes the size check and expects zero or fewer
   * chunks, so the entry passes the count check before any chunk arrives and
   * reassembles to nothing.
   */
  lemma NegativeSizeCompletesAtOnce(info: FileInfo)
    requires info.fileSize < 0
    ensures info.fileSize <= MaxFileSize
    ensures var t := Prepared(info);
      t.totalChunks <= 0 && t.receivedChunks >= t.totalChunks && Assembled(t.chunks) == []
  {
  }
}
