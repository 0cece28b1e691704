/**
 * The server's byte-range reader: a positioned read of the opened upload into
 * a freshly allocated, zero-filled buffer of the requested length.
 */
module ServerHelpers {
  import opened SharedHelpers

  function Zeros(n: nat): (z: seq<byte>)
    ensures |z| == n && forall i :: 0 <= i < n ==> z[i] == 0
  {
    seq(n, _ => 0)
  }

  /**
   * `readChunkNode(fileHandle)(chunkSize, offset)` as written: the whole
   * `Buffer.alloc(chunkSize)` is returned, so past the end of the file the
   * chunk is padded with zeros instead of being short.
   */
  function ReadChunkNode(file: seq<byte>, chunkSize: nat, offset: nat): (buffer: seq<byte>)
    ensures |buffer| == chunkSize
    ensures forall i :: 0 <= i < chunkSize && offset + i < |file| ==> buffer[i] == file[offset + i]
    ensures forall i :: 0 <= i < chunkSize && offset + i >= |file| ==> buffer[i] == 0
  {
    if offset >= |file| then Zeros(chunkSize)
    else
      var n := BytesRead(|file|, chunkSize, offset);
      file[offset..offset + n] + Zeros(chunkSize - n)
  }

  /** The server's chunk is the browser's chunk followed by zero padding up to the requested length. */
  lemma ReadChunkNodeIsPaddedBrowserChunk(file: seq<byte>, chunkSize: nat, offset: nat)
    ensures ReadChunkNode(file, chunkSize, offset)
         == ReadChunkBrowser(file, chunkSize, offset) + Zeros(chunkSize - |ReadChunkBrowser(file, chunkSize, offset)|)
  {
    var node := ReadChunkNode(file, chunkSize, offset);
    var browser := ReadChunkBrowser(file, chunkSize, offset);
    var padded := browser + Zeros(chunkSize - |browser|);
    assert |node| == |padded|;
    forall i | 0 <= i < chunkSize ensures node[i] == padded[i] {
      if i < |browser| {
        assert padded[i] == browser[i];
      } else {
        assert padded[i] == Zeros(chunkSize - |browser|)[i - |browser|];
      }
    }
  }

  /**
   * The two readers agree exactly when the window lies inside the file (or is
   * empty); past the end of the file they differ.
   */
  lemma ReadersAgreeIff(file: seq<byte>, chunkSize: nat, offset: nat)
    ensures ReadChunkNode(file, chunkSize, offset) == ReadChunkBrowser(file, chunkSize, offset)
        <==> chunkSize == 0 || offset + chunkSize <= |file|
  {
    ReadChunkNodeIsPaddedBrowserChunk(file, chunkSize, offset);
    var browser := ReadChunkBrowser(file, chunkSize, offset);
    if chunkSize == 0 || offset + chunkSize <= |file| {
      assert |browser| == chunkSize;
      assert browser + Zeros(0) == browser;
    } else {
      assert |browser| < chunkSize;
    }
  }

  /** A window that runs past the end of a three-byte file: the server pads, the browser clips. */
  lemma PastEndOfFileCounterexample()
    ensures ReadChunkNode([1, 2, 3], 4, 1) == [2, 3, 0, 0]
    ensures ReadChunkBrowser([1, 2, 3], 4, 1) == [2, 3]
  {
    var node := ReadChunkNode([1, 2, 3], 4, 1);
    assert node[0] == 2 && node[1] == 3 && node[2] == 0 && node[3] == 0;
  }

  /**
   * The read as evidently intended: only the `bytesRead` bytes the positioned
   * read filled, so the server's chunk is short at the end of the file.
   */
  function ReadChunkNodeBytesRead(file: seq<byte>, chunkSize: nat, offset: nat): (chunk: seq<byte>)
    ensures chunk == ReadChunkBrowser(file, chunkSize, offset)
  {
    var buffer := ReadChunkNode(file, chunkSize, offset);
    buffer[..BytesRead(|file|, chunkSize, offset)]
  }
}
