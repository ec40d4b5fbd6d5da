/**
 * Resumable upload: the client's splitting (frontend admin.ts), the chunk and complete handlers (main.py), and the
 * streaming and assembling of files (core/storage.py). Which reads fail is the environment's choice.
 */
module Upload {
  import opened Wrappers

  type Byte = x: int | 0 <= x < 256

  const STREAM_CHUNK_SIZE: nat := 1_048_576

  datatype UploadError = TooLarge | SizeMismatch | ReadFailed | IndexOutOfRange | Incomplete

  // ---------- sizes ----------

  /** `ceil(size / chunk)`, as both sides compute it. */
  function ExpectedChunks(size: nat, chunk: nat): nat
    requires chunk > 0
  {
    (size + chunk - 1) / chunk
  }

  /** `Math.max(1, Math.ceil(size / chunk))`. */
  function ClientChunks(size: nat, chunk: nat): nat
    requires chunk > 0
  {
    var ceiling := if size % chunk == 0 then size / chunk else size / chunk + 1;
    if ceiling < 1 then 1 else ceiling
  }

  function ExpectedSize(size: nat, chunk: nat, index: nat): int
    requires chunk > 0
  {
    if index == ExpectedChunks(size, chunk) - 1 then size - index * chunk else chunk
  }

  /** `file.slice(start, min(size, start + chunk))`; a slice that starts past the end is empty. */
  function ClientChunk(file: seq<Byte>, chunk: nat, index: nat): seq<Byte> {
    var start := index * chunk;
    var end := if start + chunk < |file| then start + chunk else |file|;
    if start <= end then file[start..end] else []
  }

  /** How the last index sits in the file. */
  lemma LastChunk(size: nat, chunk: nat)
    requires size > 0 && chunk > 0
    ensures var n := ExpectedChunks(size, chunk);
      n > 0 && (n - 1) * chunk < size <= n * chunk
    ensures ClientChunks(size, chunk) == ExpectedChunks(size, chunk)
  {
    var n := ExpectedChunks(size, chunk);
    Divided(size + chunk - 1, chunk);
    Divided(size, chunk);
    var q := size / chunk;
    if size % chunk == 0 {
      assert size == q * chunk;
      DividedIs(size + chunk - 1, chunk, q, chunk - 1);
    } else {
      assert (q + 1) * chunk == q * chunk + chunk;
      DividedIs(size + chunk - 1, chunk, q + 1, size % chunk - 1);
    }
    assert (n - 1) * chunk == n * chunk - chunk;
  }

  lemma Divided(a: nat, d: nat)
    requires d > 0
    ensures a == a / d * d + a % d && 0 <= a % d < d
  {
  }

  lemma DividedIs(a: nat, d: nat, q: int, r: nat)
    requires d > 0 && r < d && a == q * d + r
    ensures a / d == q
  {
    Divided(a, d);
    var p := a / d;
    if p < q {
      ScaleNext(p, q, d);
    } else if q < p {
      ScaleNext(q, p, d);
    }
  }

  lemma Scale(a: int, b: int, d: nat)
    requires a <= b
    ensures a * d <= b * d
  {
  }

  lemma ScaleNext(a: int, b: int, d: nat)
    requires a < b
    ensures a * d + d <= b * d
  {
    assert (a + 1) * d == a * d + d;
    Scale(a + 1, b, d);
  }

  /** Where a chunk starts and ends in the file. */
  lemma ChunkBounds(size: nat, chunk: nat, index: nat)
    requires size > 0 && chunk > 0 && index < ExpectedChunks(size, chunk)
    ensures index * chunk < size
    ensures if index == ExpectedChunks(size, chunk) - 1 then size <= index * chunk + chunk else index * chunk + chunk < size
  {
    var n := ExpectedChunks(size, chunk);
    LastChunk(size, chunk);
    Scale(index, n - 1, chunk);
    if index < n - 1 {
      Scale(index + 1, n - 1, chunk);
      assert (index + 1) * chunk == index * chunk + chunk;
    } else {
      assert n * chunk == (n - 1) * chunk + chunk;
    }
  }

  lemma SliceFrom(file: seq<Byte>, chunk: nat, index: nat)
    requires index * chunk < |file|
    ensures var start := index * chunk;
      ClientChunk(file, chunk, index) == file[start..if start + chunk < |file| then start + chunk else |file|]
  {
  }

  /** The size the server expects of a chunk is the size the client cuts, and never more than the chunk size. */
  lemma ChunkSizes(file: seq<Byte>, chunk: nat, index: nat)
    requires |file| > 0 && chunk > 0 && index < ExpectedChunks(|file|, chunk)
    ensures |ClientChunk(file, chunk, index)| == ExpectedSize(|file|, chunk, index)
    ensures 0 < ExpectedSize(|file|, chunk, index) <= chunk
    ensures ClientChunk(file, chunk, index) == file[index * chunk..index * chunk + ExpectedSize(|file|, chunk, index)]
  {
    ChunkBounds(|file|, chunk, index);
    SliceFrom(file, chunk, index);
  }

  // ---------- assembling ----------

  function Assembled(chunks: map<nat, seq<Byte>>, n: nat): seq<Byte>
    requires forall i | 0 <= i < n :: i in chunks
  {
    if n == 0 then [] else Assembled(chunks, n - 1) + chunks[n - 1]
  }

  /** Every stored chunk has an index of the file and the size expected of it. */
  predicate Sized(chunks: map<nat, seq<Byte>>, size: nat, chunk: nat)
    requires chunk > 0
  {
    forall i | i in chunks :: i < ExpectedChunks(size, chunk) && |chunks[i]| == ExpectedSize(size, chunk, i)
  }

  predicate AllStored(chunks: map<nat, seq<Byte>>, n: nat) {
    forall i | 0 <= i < n :: i in chunks
  }

  /** Chunks of the expected sizes add up to the declared file size. */
  lemma {:induction false} AssembledSize(chunks: map<nat, seq<Byte>>, size: nat, chunk: nat, n: nat)
    requires size > 0 && chunk > 0 && Sized(chunks, size, chunk)
    requires n <= ExpectedChunks(size, chunk) && AllStored(chunks, n)
    ensures |Assembled(chunks, n)| == if n == ExpectedChunks(size, chunk) then size else n * chunk
  {
    LastChunk(size, chunk);
    if n > 0 {
      AssembledSize(chunks, size, chunk, n - 1);
      assert n * chunk == (n - 1) * chunk + chunk;
    }
  }

  /** A shorter prefix of them stays below it. */
  lemma AssembledFits(chunks: map<nat, seq<Byte>>, size: nat, chunk: nat, n: nat)
    requires size > 0 && chunk > 0 && Sized(chunks, size, chunk)
    requires n <= ExpectedChunks(size, chunk) && AllStored(chunks, n)
    ensures |Assembled(chunks, n)| <= size
    ensures |Assembled(chunks, n)| == size <==> n == ExpectedChunks(size, chunk)
  {
    AssembledSize(chunks, size, chunk, n);
    LastChunk(size, chunk);
    if n < ExpectedChunks(size, chunk) { Scale(n, ExpectedChunks(size, chunk) - 1, chunk); }
  }

  /** Every stored chunk is the client's own. */
  predicate FromFile(chunks: map<nat, seq<Byte>>, file: seq<Byte>, chunk: nat)
    requires chunk > 0
  {
    forall i | i in chunks :: i < ExpectedChunks(|file|, chunk) && chunks[i] == ClientChunk(file, chunk, i)
  }

  /** The client's chunks in index order are its file. */
  lemma {:induction false} AssembledIsFile(chunks: map<nat, seq<Byte>>, file: seq<Byte>, chunk: nat, n: nat)
    requires |file| > 0 && chunk > 0 && FromFile(chunks, file, chunk)
    requires n <= ExpectedChunks(|file|, chunk) && AllStored(chunks, n)
    ensures Assembled(chunks, n) == file[..Covered(|file|, chunk, n)]
  {
    if n == 0 {
      CoveredAt(|file|, chunk, 0);
      assert file[..0] == [];
    } else {
      AssembledIsFile(chunks, file, chunk, n - 1);
      CoveredNext(file, chunk, n);
      Slices(file, Covered(|file|, chunk, n - 1), Covered(|file|, chunk, n));
    }
  }

  lemma Slices(file: seq<Byte>, start: nat, end: nat)
    requires start <= end <= |file|
    ensures file[..start] + file[start..end] == file[..end]
  {
  }

  /** How much of the file the first `n` chunks cover. */
  function Covered(size: nat, chunk: nat, n: nat): (end: nat)
    ensures end <= size
  {
    if n * chunk < size then n * chunk else size
  }

  lemma CoveredAt(size: nat, chunk: nat, n: nat)
    requires size > 0 && chunk > 0 && n <= ExpectedChunks(size, chunk)
    ensures Covered(size, chunk, n) == if n == ExpectedChunks(size, chunk) then size else n * chunk
  {
    LastChunk(size, chunk);
    if n < ExpectedChunks(size, chunk) { Scale(n, ExpectedChunks(size, chunk) - 1, chunk); }
  }

  /** The next chunk is what lies between. */
  lemma CoveredNext(file: seq<Byte>, chunk: nat, n: nat)
    requires |file| > 0 && chunk > 0 && 0 < n <= ExpectedChunks(|file|, chunk)
    ensures Covered(|file|, chunk, n - 1) <= Covered(|file|, chunk, n)
    ensures ClientChunk(file, chunk, n - 1) == file[Covered(|file|, chunk, n - 1)..Covered(|file|, chunk, n)]
  {
    ChunkSizes(file, chunk, n - 1);
    CoveredAt(|file|, chunk, n - 1);
    CoveredAt(|file|, chunk, n);
    assert n * chunk == (n - 1) * chunk + chunk;
  }

  // ---------- the server ----------

  /** The blocks are read one by one until an empty one; the read numbered `failAt` raises, if it is reached. */
  predicate ReadsThrough(failAt: Option<nat>, length: nat) {
    failAt.Some? ==> failAt.value > 0 && (failAt.value - 1) * STREAM_CHUNK_SIZE >= length
  }

  /** `stream_upload`: the body is stored whole exactly when every read succeeds and its size is as required. */
  method StreamUpload(body: seq<Byte>, failAt: Option<nat>, maxBytes: nat, expectedBytes: Option<int>)
    returns (r: Result<seq<Byte>, UploadError>)
    ensures r.Ok? == (ReadsThrough(failAt, |body|) && |body| <= maxBytes
                      && (expectedBytes.Some? ==> |body| == expectedBytes.value))
    ensures r.Ok? ==> r.value == body
    ensures failAt.None? && |body| > maxBytes ==> r == Err(TooLarge)
    ensures ReadsThrough(failAt, |body|) && |body| <= maxBytes && r.Err? ==> r == Err(SizeMismatch)
  {
    var output: seq<Byte> := [];
    var total, round, position := 0, 0, 0;
    while true
      invariant position <= |body| && output == body[..position] && total == position <= maxBytes
      invariant position == round * STREAM_CHUNK_SIZE || (position == |body| && (round - 1) * STREAM_CHUNK_SIZE < |body|)
      invariant position <= round * STREAM_CHUNK_SIZE
      invariant failAt.Some? ==> round <= failAt.value
      decreases |body| - position
    {
      if failAt == Some(round) {
        return Err(ReadFailed);
      }
      var end := if position + STREAM_CHUNK_SIZE < |body| then position + STREAM_CHUNK_SIZE else |body|;
      var data := body[position..end];
      if data == [] {
        assert end == position;
        break;
      }
      total := total + |data|;
      if total > maxBytes {
        return Err(TooLarge);
      }
      output := output + data;
      position, round := end, round + 1;
    }
    assert body[..position] == body;
    if expectedBytes.Some? && total != expectedBytes.value {
      return Err(SizeMismatch);
    }
    r := Ok(output);
  }

  /** Copying one part file block by block, giving up when the output outgrows the declared size. */
  method CopyBlocks(output: seq<Byte>, source: seq<Byte>, expectedSize: nat) returns (r: Result<seq<Byte>, UploadError>)
    requires |output| <= expectedSize
    ensures r == if |output| + |source| > expectedSize then Err(TooLarge) else Ok(output + source)
  {
    var copy, position := output, 0;
    while position < |source|
      invariant position <= |source| && copy == output + source[..position] && |copy| <= expectedSize
    {
      var end := if position + STREAM_CHUNK_SIZE < |source| then position + STREAM_CHUNK_SIZE else |source|;
      if |copy| + (end - position) > expectedSize {
        return Err(TooLarge);
      }
      copy := copy + source[position..end];
      position := end;
    }
    assert source[..position] == source;
    r := Ok(copy);
  }

  class Session {
    const fileSize: nat
    const chunkSize: nat
    var chunks: map<nat, seq<Byte>>    // the `.part` files by index

    ghost predicate Valid()
      reads this
    {
      fileSize > 0 && chunkSize > 0 && Sized(chunks, fileSize, chunkSize)
    }

    constructor (fileSize: nat, chunkSize: nat)
      requires fileSize > 0 && chunkSize > 0
      ensures Valid() && this.fileSize == fileSize && this.chunkSize == chunkSize && chunks == map[]
    {
      this.fileSize, this.chunkSize, this.chunks := fileSize, chunkSize, map[];
    }

    /** `upload_resumable_chunk`: a chunk is stored exactly when its index and size are right and no read failed. */
    method UploadChunk(index: nat, body: seq<Byte>, failAt: Option<nat>) returns (r: Result<(), UploadError>)
      requires Valid()
      modifies this
      ensures Valid()
      ensures chunks == if r.Ok? then old(chunks)[index := body] else old(chunks)
      ensures r.Ok? == (index < ExpectedChunks(fileSize, chunkSize)
        && |body| == ExpectedSize(fileSize, chunkSize, index) && ReadsThrough(failAt, |body|))
      ensures index >= ExpectedChunks(fileSize, chunkSize) ==> r == Err(IndexOutOfRange)
    {
      var expectedChunks := (fileSize + chunkSize - 1) / chunkSize;
      if index >= expectedChunks {
        return Err(IndexOutOfRange);
      }
      var expectedSize: int := chunkSize;
      if index == expectedChunks - 1 {
        expectedSize := fileSize - index * chunkSize;
      }
      SizeWithinChunk(fileSize, chunkSize, index);
      var content := StreamUpload(body, failAt, chunkSize, Some(expectedSize));
      if content.Err? {
        return Err(content.error);
      }
      chunks := chunks[index := content.value];
      r := Ok(());
    }

    /** `combine_chunks`: the part files in index order, with both size checks. */
    method CombineChunks(expectedChunks: nat) returns (r: Result<seq<Byte>, UploadError>)
      requires Valid() && expectedChunks <= ExpectedChunks(fileSize, chunkSize)
      ensures r.Ok? <==> AllStored(chunks, expectedChunks) && expectedChunks == ExpectedChunks(fileSize, chunkSize)
      ensures r.Ok? ==> r.value == Assembled(chunks, expectedChunks)
    {
      var output: seq<Byte> := [];
      var total := 0;
      for index := 0 to expectedChunks
        invariant AllStored(chunks, index) && output == Assembled(chunks, index) && total == |output|
      {
        if index !in chunks {
          return Err(Incomplete);
        }
        AssembledFits(chunks, fileSize, chunkSize, index + 1);
        var copied := CopyBlocks(output, chunks[index], fileSize);
        if copied.Err? {
          return Err(TooLarge);
        }
        output := copied.value;
        total := |output|;
      }
      AssembledFits(chunks, fileSize, chunkSize, expectedChunks);
      if total != fileSize {
        return Err(SizeMismatch);
      }
      r := Ok(output);
    }
  }

  lemma SizeWithinChunk(size: nat, chunk: nat, index: nat)
    requires size > 0 && chunk > 0 && index < ExpectedChunks(size, chunk)
    ensures 0 < ExpectedSize(size, chunk, index) <= chunk
  {
    var n := ExpectedChunks(size, chunk);
    LastChunk(size, chunk);
    assert n * chunk == (n - 1) * chunk + chunk;
  }

  // ---------- a whole upload ----------

  /** One request of the client for one index, and the read of its body at which the transfer fails, if it is reached. */
  datatype Attempt = Attempt(index: nat, failAt: Option<nat>)

  predicate Arrives(file: seq<Byte>, chunk: nat, a: Attempt) {
    ReadsThrough(a.failAt, |ClientChunk(file, chunk, a.index)|)
  }

  predicate Sent(file: seq<Byte>, chunk: nat, attempts: seq<Attempt>, index: nat) {
    exists a :: a in attempts && a.index == index && Arrives(file, chunk, a)
  }

  /** The stored chunks after the client's attempts, each sending its own bytes. */
  function Stored(file: seq<Byte>, chunk: nat, attempts: seq<Attempt>): map<nat, seq<Byte>>
    requires chunk > 0
    decreases |attempts|
  {
    if |attempts| == 0 then map[]
    else
      var before := Stored(file, chunk, attempts[..|attempts| - 1]);
      var a := attempts[|attempts| - 1];
      if !Arrives(file, chunk, a) || a.index >= ExpectedChunks(|file|, chunk) then before
      else before[a.index := ClientChunk(file, chunk, a.index)]
  }

  lemma {:induction false} StoredFacts(file: seq<Byte>, chunk: nat, attempts: seq<Attempt>)
    requires chunk > 0
    ensures FromFile(Stored(file, chunk, attempts), file, chunk)
    ensures forall i: nat ::
      i in Stored(file, chunk, attempts) <==> i < ExpectedChunks(|file|, chunk) && Sent(file, chunk, attempts, i)
    decreases |attempts|
  {
    if |attempts| > 0 {
      var init, last := attempts[..|attempts| - 1], attempts[|attempts| - 1];
      StoredFacts(file, chunk, init);
      assert forall a :: a in attempts <==> a in init || a == last;
      forall i: nat ensures Sent(file, chunk, attempts, i)
        <==> Sent(file, chunk, init, i) || (last.index == i && Arrives(file, chunk, last)) {}
    }
  }

  /** The client's uploads over a session, in any order, with repeats and transfers that break off anywhere. */
  method UploadAll(session: Session, file: seq<Byte>, attempts: seq<Attempt>)
    requires session.Valid() && session.chunks == map[] && session.fileSize == |file|
    modifies session
    ensures session.Valid() && session.chunks == Stored(file, session.chunkSize, attempts)
  {
    for k := 0 to |attempts|
      invariant session.Valid() && session.chunks == Stored(file, session.chunkSize, attempts[..k])
    {
      var a := attempts[k];
      assert attempts[..k + 1][..k] == attempts[..k] && attempts[..k + 1][k] == a;
      if a.index < ExpectedChunks(|file|, session.chunkSize) { ChunkSizes(file, session.chunkSize, a.index); }
      var r := session.UploadChunk(a.index, ClientChunk(file, session.chunkSize, a.index), a.failAt);
    }
    assert attempts[..|attempts|] == attempts;
  }

  /** `complete_resumable_upload` up to the assembled file. */
  method Complete(session: Session) returns (r: Result<seq<Byte>, UploadError>)
    requires session.Valid()
    ensures r.Ok? <==> AllStored(session.chunks, ExpectedChunks(session.fileSize, session.chunkSize))
    ensures r.Ok? ==> r.value == Assembled(session.chunks, ExpectedChunks(session.fileSize, session.chunkSize))
    ensures r.Err? ==> r.error == Incomplete
  {
    var expectedChunks := (session.fileSize + session.chunkSize - 1) / session.chunkSize;
    var missing := false;
    for i := 0 to expectedChunks
      invariant missing <==> !AllStored(session.chunks, i)
    {
      if i !in session.chunks {
        missing := true;
      }
    }
    if missing {
      return Err(Incomplete);
    }
    r := session.CombineChunks(expectedChunks);
  }

  /**
   * Over any attempts, completion is accepted exactly when every index of the file was sent at least once without the
   * transfer breaking off, and the assembled output is then the client's file, byte for byte.
   */
  lemma UploadRoundTrip(file: seq<Byte>, chunk: nat, attempts: seq<Attempt>)
    requires |file| > 0 && chunk > 0
    ensures var n := ExpectedChunks(|file|, chunk);
      var chunks := Stored(file, chunk, attempts);
      && (AllStored(chunks, n) <==> forall i | 0 <= i < n :: Sent(file, chunk, attempts, i))
      && (AllStored(chunks, n) ==> Assembled(chunks, n) == file)
  {
    var n := ExpectedChunks(|file|, chunk);
    var chunks := Stored(file, chunk, attempts);
    StoredFacts(file, chunk, attempts);
    if AllStored(chunks, n) {
      AssembledIsFile(chunks, file, chunk, n);
      CoveredAt(|file|, chunk, n);
      assert file[..|file|] == file;
    }
  }
}
