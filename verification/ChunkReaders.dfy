/**
 * The three stateful chunk readers. Each decides "end of file" differently; each is proved against
 * `Chunking.Split`. A file is its octets; `pos` is the position of the open stream.
 */
module ChunkReaders {
  import opened Bytes
  import opened Chunking
  import opened Io

  /** The part of the file one `read` of up to `n` octets delivers at position `pos`. */
  function ReadAt(file: Bytes, pos: nat, n: nat): (r: Bytes)
    requires pos <= |file|
    ensures |r| <= n
    ensures r == [] <==> n == 0 || pos == |file|
  {
    if |file| - pos <= n then file[pos..] else file[pos..pos + n]
  }

  /** Reading one piece takes the head off the split of what is left. */
  lemma ReadTakesHead(file: Bytes, pos: nat, n: nat)
    requires n > 0 && pos < |file|
    ensures
      var piece := ReadAt(file, pos, n);
      && Split(file[pos..], n) != []
      && piece == Split(file[pos..], n)[0]
      && pos + |piece| <= |file|
      && Split(file[pos + |piece|..], n) == Split(file[pos..], n)[1..]
      && (|piece| < n ==> pos + |piece| == |file|)
  {
    var piece := ReadAt(file, pos, n);
    if |file| - pos > n {
      assert file[pos..][..n] == piece;
      assert file[pos..][n..] == file[pos + |piece|..];
    }
  }

  lemma SplitOfNothing(file: Bytes, pos: nat, n: nat)
    requires n > 0 && pos <= |file|
    ensures Split(file[pos..], n) == [] <==> pos == |file|
  {
  }

  /** The same seen from the whole file: the next read is piece `k`, and it is short only as a short tail. */
  lemma ReadIsPiece(file: Bytes, pos: nat, n: nat, k: nat)
    requires n > 0 && pos < |file|
    requires k <= |Split(file, n)| && Split(file[pos..], n) == Split(file, n)[k..]
    ensures
      var all := Split(file, n);
      var piece := ReadAt(file, pos, n);
      && k < |all| && piece == all[k]
      && pos + |piece| <= |file|
      && Split(file[pos + |piece|..], n) == all[k + 1..]
      && (pos + |piece| == |file| <==> k + 1 == |all|)
      && (|piece| < n <==> k + 1 == |all| && EndsShort(file, n))
  {
    var all := Split(file, n);
    ReadTakesHead(file, pos, n);
    assert all[k..][1..] == all[k + 1..];
    var piece := ReadAt(file, pos, n);
    SplitOfNothing(file, pos + |piece|, n);
    SplitIsPartition(file, n);
  }

  /** `benchmark_common::ChunkReader`, the reader of the gRPC and Cap'n Proto clients. */
  class StreamChunkReader {
    const file: Bytes
    const chunkSize: nat
    var pos: nat
    var eofFlag: bool
    var totalBytesRead: nat

    ghost predicate Valid()
      reads this
    {
      && chunkSize > 0
      && pos <= |file|
      && totalBytesRead == pos
      && (eofFlag ==> pos == |file|)
    }

    /** The pieces still to come. */
    ghost function Pending(): seq<Bytes>
      reads this
      requires Valid()
    {
      Split(file[pos..], chunkSize)
    }

    constructor (file: Bytes, chunkSize: nat)
      requires chunkSize > 0
      ensures Valid() && this.file == file && this.chunkSize == chunkSize
      ensures Pending() == Split(file, chunkSize)
    {
      this.file, this.chunkSize := file, chunkSize;
      pos, eofFlag, totalBytesRead := 0, false, 0;
      new;
      assert file[0..] == file;
    }

    method NextChunk() returns (chunk: Bytes)
      requires Valid()
      modifies this
      ensures Valid()
      ensures old(Pending()) != [] ==> chunk == old(Pending())[0] && Pending() == old(Pending())[1..]
      ensures old(Pending()) == [] ==> chunk == [] && Pending() == []
      ensures chunk == [] <==> old(Pending()) == []
      ensures chunk == [] ==> Eof()
    {
      if eofFlag {
        return [];
      }
      var buffer := ReadAt(file, pos, chunkSize);
      if |buffer| > 0 {
        ReadTakesHead(file, pos, chunkSize);
        pos := pos + |buffer|;
        totalBytesRead := totalBytesRead + |buffer|;
        return buffer;
      } else {
        eofFlag := true;
        return [];
      }
    }

    /** This reader reports the end as soon as the last octet is out. */
    predicate Eof()
      reads this
      requires Valid()
      ensures Eof() <==> Pending() == []
    {
      eofFlag || totalBytesRead >= |file|
    }

    method Reset()
      requires Valid()
      modifies this
      ensures Valid() && Pending() == Split(file, chunkSize)
    {
      pos, eofFlag, totalBytesRead := 0, false, 0;
      assert file[0..] == file;
    }

    /** What is left is what the pieces still to come add up to. */
    method RemainingBytes() returns (n: nat)
      requires Valid()
      ensures n == TotalSize(Pending())
    {
      SplitIsPartition(file[pos..], chunkSize);
      if totalBytesRead >= |file| {
        return 0;
      }
      return |file| - totalBytesRead;
    }
  }

  /** The C++ TCP benchmark's `ChunkReader`: a short read, or an empty one, raises the flag. */
  class CountingChunkReader {
    const file: Bytes
    const chunkSize: nat
    const fileSize: nat
    const totalChunks: nat
    var pos: nat
    var streamEof: bool
    var chunksRead: nat
    var eof: bool

    ghost predicate Valid()
      reads this
    {
      && chunkSize > 0
      && fileSize == |file|
      && totalChunks == |Split(file, chunkSize)|
      && pos <= |file|
      && chunksRead <= totalChunks
      && Split(file[pos..], chunkSize) == Split(file, chunkSize)[chunksRead..]
      && (eof || streamEof ==> pos == |file|)
      && (chunksRead < totalChunks ==> !eof)
      && (|file| == 0 ==> eof)
    }

    constructor (file: Bytes, chunkSize: nat)
      requires chunkSize > 0
      ensures Valid() && this.file == file && this.chunkSize == chunkSize
      ensures chunksRead == 0 && (eof <==> |file| == 0)
    {
      this.file, this.chunkSize, fileSize := file, chunkSize, |file|;
      totalChunks := if |file| == 0 then 0 else (|file| + chunkSize - 1) / chunkSize;
      pos, streamEof, chunksRead, eof := 0, false, 0, |file| == 0;
      new;
      SplitCount(file, chunkSize);
      assert file[0..] == file;
    }

    method ReadNextChunk() returns (chunk: Bytes)
      requires Valid()
      modifies this
      ensures Valid()
      ensures old(chunksRead) < totalChunks ==>
          && chunk == Split(file, chunkSize)[old(chunksRead)] && chunksRead == old(chunksRead) + 1
          && (eof <==> chunksRead == totalChunks && EndsShort(file, chunkSize))
      ensures old(chunksRead) == totalChunks ==> chunk == [] && chunksRead == totalChunks && eof
      ensures chunk == [] <==> old(chunksRead) == totalChunks
    {
      SplitOfNothing(file, pos, chunkSize);
      if eof || streamEof {
        eof := true;
        return [];
      }
      var buffer := ReadAt(file, pos, chunkSize);
      streamEof := |buffer| < chunkSize;
      if |buffer| == 0 {
        eof := true;
        return [];
      }
      ReadIsPiece(file, pos, chunkSize, chunksRead);
      if |buffer| < chunkSize {
        eof := true;
      }
      pos := pos + |buffer|;
      chunksRead := chunksRead + 1;
      return buffer;
    }
  }

  /** The Go reader: `file.Read` may deliver fewer octets than asked for, and the end comes by counting. */
  class CountedBytesReader {
    const file: Bytes
    const chunkSize: nat
    const fileSize: nat
    const totalChunks: nat
    var pos: nat
    var bytesRead: nat
    var eofReached: bool

    ghost predicate Valid()
      reads this
    {
      && chunkSize > 0
      && fileSize == |file|
      && totalChunks == |Split(file, chunkSize)|
      && pos <= |file| && bytesRead == pos
      && (eofReached ==> pos == |file|)
      && (pos == |file| && |file| > 0 ==> eofReached)
    }

    ghost function Rest(): Bytes
      reads this
      requires Valid()
    {
      file[pos..]
    }

    constructor (file: Bytes, chunkSize: nat)
      requires chunkSize > 0
      ensures Valid() && this.file == file && this.chunkSize == chunkSize
      ensures Rest() == file && !eofReached
    {
      this.file, this.chunkSize, fileSize := file, chunkSize, |file|;
      totalChunks :=
        if |file| == 0 then 0
        else if |file| % chunkSize != 0 then |file| / chunkSize + 1
        else |file| / chunkSize;
      pos, bytesRead, eofReached := 0, 0, false;
      new;
      SplitCount(file, chunkSize);
    }

    /**
     * The operating system's read: any positive number of octets up to the buffer size while some are
     * left, possibly reporting the end together with the last of them.
     */
    method FileRead() returns (data: Bytes, err: IoError)
      requires Valid()
      modifies this`pos
      ensures pos == old(pos) + |data| && pos <= |file| && data == file[old(pos)..pos]
      ensures |data| <= chunkSize
      ensures old(pos) < |file| ==> |data| > 0
      ensures err == NoError || (err == EOF && pos == |file|)
      ensures old(pos) == |file| ==> err == EOF
    {
      if pos == |file| {
        return [], EOF;
      }
      var n :| 0 < n <= chunkSize && pos + n <= |file|;
      data := file[pos..pos + n];
      pos := pos + n;
      var together: bool :| true;
      err := if together && pos == |file| then EOF else NoError;
    }

    method ReadNextChunk() returns (chunk: Bytes, err: IoError)
      requires Valid()
      modifies this
      ensures Valid()
      ensures chunk + Rest() == old(Rest()) && |chunk| <= chunkSize
      ensures err == EOF <==> old(Rest()) == []
      ensures chunk == [] <==> old(Rest()) == []
      ensures eofReached <==> Rest() == []
    {
      if eofReached {
        return [], EOF;
      }
      var data, readErr := FileRead();
      if readErr != NoError {
        eofReached := true;
        if |data| > 0 {
          bytesRead := bytesRead + |data|;
          return data, NoError;
        }
        return [], readErr;
      }
      bytesRead := bytesRead + |data|;
      if bytesRead >= fileSize {
        eofReached := true;
      }
      return data, NoError;
    }
  }

  lemma TakeOne(before: seq<Bytes>, pending: seq<Bytes>, all: seq<Bytes>)
    requires pending != [] && before + pending == all
    ensures (before + [pending[0]]) + pending[1..] == all
  {
  }

  /** Reading the first reader to exhaustion yields exactly the split of the file. */
  method DrainStreamReader(file: Bytes, chunkSize: nat) returns (pieces: seq<Bytes>)
    requires chunkSize > 0
    ensures pieces == Split(file, chunkSize)
  {
    var reader := new StreamChunkReader(file, chunkSize);
    pieces := [];
    while true
      invariant fresh(reader) && reader.Valid()
      invariant pieces + reader.Pending() == Split(file, chunkSize)
      decreases |reader.Pending()|
    {
      ghost var pending := reader.Pending();
      var chunk := reader.NextChunk();
      if chunk == [] && reader.Eof() {
        break;
      }
      TakeOne(pieces, pending, Split(file, chunkSize));
      pieces := pieces + [chunk];
    }
  }

  /** The second reader agrees with the first, and has counted what it announced. */
  method DrainCountingReader(file: Bytes, chunkSize: nat) returns (pieces: seq<Bytes>, total: nat, counted: nat)
    requires chunkSize > 0
    ensures pieces == Split(file, chunkSize)
    ensures total == counted == |pieces|
  {
    var reader := new CountingChunkReader(file, chunkSize);
    pieces := [];
    while !reader.eof
      invariant fresh(reader) && reader.Valid() && reader.file == file && reader.chunkSize == chunkSize
      invariant pieces == Split(file, chunkSize)[..reader.chunksRead]
      decreases reader.totalChunks - reader.chunksRead, !reader.eof
    {
      var chunk := reader.ReadNextChunk();
      if chunk != [] {
        pieces := pieces + [chunk];
      }
    }
    total, counted := reader.totalChunks, reader.chunksRead;
  }

  /** No piece is empty and none is longer than a chunk. */
  ghost predicate Sized(pieces: seq<Bytes>, chunkSize: nat) {
    forall i :: 0 <= i < |pieces| ==> 0 < |pieces[i]| <= chunkSize
  }

  /** One more piece off the front of what is left. */
  lemma NextPiece(file: Bytes, before: seq<Bytes>, chunk: Bytes, after: Bytes, rest: Bytes, chunkSize: nat)
    requires Flatten(before) + rest == file && chunk + after == rest
    requires Sized(before, chunkSize) && 0 < |chunk| <= chunkSize
    ensures Sized(before + [chunk], chunkSize)
    ensures Flatten(before + [chunk]) == Flatten(before) + chunk
    ensures Flatten(before + [chunk]) + after == file
  {
    FlattenAppend(before, chunk);
  }

  /** The Go reader may cut elsewhere, but loses, adds and reorders nothing, whatever the short reads. */
  method DrainCountedBytesReader(file: Bytes, chunkSize: nat) returns (pieces: seq<Bytes>)
    requires chunkSize > 0
    ensures Flatten(pieces) == file
    ensures Sized(pieces, chunkSize)
  {
    var reader := new CountedBytesReader(file, chunkSize);
    pieces := [];
    while true
      invariant fresh(reader) && reader.Valid() && reader.chunkSize == chunkSize
      invariant Flatten(pieces) + reader.Rest() == file
      invariant Sized(pieces, chunkSize)
      decreases |reader.Rest()|
    {
      ghost var rest := reader.Rest();
      var chunk, err := reader.ReadNextChunk();
      if err == EOF {
        break;
      }
      NextPiece(file, pieces, chunk, reader.Rest(), rest, chunkSize);
      pieces := pieces + [chunk];
    }
  }
}
