// What every trace of Image::create_file satisfies, whatever the host replies: the copy loop
// writes back exactly what it reads, the image is only touched after the metadata is
// complete, the stream is only written after CimCreateFile succeeded, and the two handles
// are closed only on the path where everything succeeded.
module ImageTrace {
  import opened Core
  import opened Raw
  import opened Paths
  import opened Environment
  import opened Images

  /** A call that only queries the source file: no image, no stream, no data. */
  predicate IsQuery(e: Event) {
    e.CreateFile? || e.QueryBasicInfo? || e.QueryFileSize? || e.QueryReparsePoint? || e.QuerySecurity?
  }

  /** The bytes the successful reads of a trace returned, in order. */
  function BytesRead(es: seq<Event>): seq<byte> {
    if es == [] then []
    else
      var e := es[|es| - 1];
      BytesRead(es[..|es| - 1]) + (if e.ReadFile? && e.data.Ok? then e.data.value else [])
  }

  /** The bytes the writes of a trace handed to the engine, in order. */
  function BytesWritten(es: seq<Event>): seq<byte> {
    if es == [] then []
    else
      var e := es[|es| - 1];
      BytesWritten(es[..|es| - 1]) + (if e.WriteStream? then e.written else [])
  }

  // ---------------------------------------------------------------------------------------
  // Helpers: where each event of a trace comes from

  lemma {:induction false} BytesReadAppend(a: seq<Event>, b: seq<Event>)
    ensures BytesRead(a + b) == BytesRead(a) + BytesRead(b)
    decreases |b|
  {
    AppendLast(a, b);
    if b != [] {
      BytesReadAppend(a, b[..|b| - 1]);
    }
  }

  lemma {:induction false} BytesWrittenAppend(a: seq<Event>, b: seq<Event>)
    ensures BytesWritten(a + b) == BytesWritten(a) + BytesWritten(b)
    decreases |b|
  {
    AppendLast(a, b);
    if b != [] {
      BytesWrittenAppend(a, b[..|b| - 1]);
    }
  }

  lemma BytesAppend(a: seq<Event>, b: seq<Event>)
    ensures BytesRead(a + b) == BytesRead(a) + BytesRead(b)
    ensures BytesWritten(a + b) == BytesWritten(a) + BytesWritten(b)
  {
    BytesReadAppend(a, b);
    BytesWrittenAppend(a, b);
  }

  lemma {:induction false} QueriesCarryNoBytes(es: seq<Event>)
    requires forall i :: 0 <= i < |es| ==> IsQuery(es[i])
    ensures BytesRead(es) == [] && BytesWritten(es) == []
    decreases |es|
  {
    if es != [] {
      QueriesCarryNoBytes(es[..|es| - 1]);
    }
  }

  lemma {:induction false} ChunkBytes(file: FileHandle, stream: StreamHandle, chunks: seq<Chunk>)
    ensures BytesRead(ChunkEvents(file, stream, chunks)) == Data(chunks)
    ensures BytesWritten(ChunkEvents(file, stream, chunks)) == Data(chunks)
    decreases |chunks|
  {
    if chunks != [] {
      var init := chunks[..|chunks| - 1];
      var c := chunks[|chunks| - 1];
      ChunkBytes(file, stream, init);
      var pass := [Event.ReadFile(file, COPY_BUFFER_SIZE, Ok(c.data)), Event.WriteStream(stream, c.data, c.status)];
      assert ChunkEvents(file, stream, chunks) == ChunkEvents(file, stream, init) + pass;
      assert Data(chunks) == Data(init) + c.data;
      BytesAppend(ChunkEvents(file, stream, init), pass);
      assert pass[..|pass| - 1] == [pass[0]] && [pass[0]][..0] == [];
      assert BytesRead([pass[0]]) == c.data && BytesWritten([pass[0]]) == [];
    }
  }

  /** Pass i of the loop is the read at position 2i and the write of the same bytes right after it. */
  lemma {:induction false} ChunkEventAt(file: FileHandle, stream: StreamHandle, chunks: seq<Chunk>, k: nat)
    requires k < 2 * |chunks|
    ensures ChunkEvents(file, stream, chunks)[k]
         == if k % 2 == 0 then Event.ReadFile(file, COPY_BUFFER_SIZE, Ok(chunks[k / 2].data))
            else Event.WriteStream(stream, chunks[k / 2].data, chunks[k / 2].status)
    decreases |chunks|
  {
    var init := chunks[..|chunks| - 1];
    if k < 2 * |init| {
      ChunkEventAt(file, stream, init, k);
    }
  }

  lemma PrepareOnlyQueries(src: SrcPath, q: Queries)
    ensures |Prepare(src, q).events| > 0 && Prepare(src, q).events[0] == Event.CreateFile(src, q.open)
    ensures forall i :: 0 <= i < |Prepare(src, q).events| ==> IsQuery(Prepare(src, q).events[i])
    ensures Prepare(src, q).outcome.Ready? ==> q.open.Ok? && Prepare(src, q).outcome.file == q.open.value
    ensures forall i :: 0 <= i < |Prepare(src, q).events| && Prepare(src, q).events[i].QueryFileSize? ==>
      q.open.Ok? && q.basic.Ok? && !IsDirectory(q.basic.value)
    ensures forall i :: 0 <= i < |Prepare(src, q).events| && Prepare(src, q).events[i].QueryReparsePoint? ==>
      && q.open.Ok? && q.basic.Ok? && IsReparsePoint(q.basic.value)
      && Prepare(src, q).events[i].ioControlCode == FSCTL_GET_REPARSE_POINT
      && Prepare(src, q).events[i].capacity == MAXIMUM_REPARSE_DATA_BUFFER_SIZE
  {
  }

  /** Event i of the copy loop and the closes after it. */
  lemma CopyEventAt(file: FileHandle, stream: StreamHandle, c: Copy, i: nat)
    requires i < |CopyRun(file, stream, c).events|
    ensures var e := CopyRun(file, stream, c).events[i];
      var n := 2 * |c.chunks|;
      && (i < n ==> e == ChunkEvents(file, stream, c.chunks)[i])
      && (i >= n && c.readError.Some? ==> i == n && e == Event.ReadFile(file, COPY_BUFFER_SIZE, Err(c.readError.value)))
      && (i >= n && c.readError.None? ==>
            (i == n && e == Event.CloseStream(stream)) || (i == n + 1 && e == Event.CloseHandle(file, c.close)))
  {
  }

  /** A trace and its result, by the stage at which create_file stopped. */
  lemma RunShape(image: ImageHandle, relativePath: RelPath, src: SrcPath, w: Replies)
    ensures var prep := Prepare(src, w.queries);
      var run := CreateFileRun(image, relativePath, src, w);
      && (prep.outcome.Failed? ==> run == Run(prep.events, Err(prep.outcome.error)))
      && (prep.outcome.Ready? ==>
            var created := prep.events + [Event.CreateObject(image, relativePath, prep.outcome.metadata, w.createStatus, w.stream)];
            && (IsErr(w.createStatus) ==> run == Run(created, Err(Error(w.createStatus))))
            && (!IsErr(w.createStatus) ==>
                  var copy := CopyRun(prep.outcome.file, w.stream, w.copy);
                  run == Run(created + copy.events, copy.result)))
  {
  }

  /** The copy loop and the closes carry the passes' bytes, both as read and as written. */
  lemma CopyRunBytes(file: FileHandle, stream: StreamHandle, c: Copy)
    ensures BytesRead(CopyRun(file, stream, c).events) == Data(c.chunks)
    ensures BytesWritten(CopyRun(file, stream, c).events) == Data(c.chunks)
  {
    var copied := ChunkEvents(file, stream, c.chunks);
    var events := CopyRun(file, stream, c).events;
    ChunkBytes(file, stream, c.chunks);
    var tail := events[|copied|..];
    assert events == copied + tail;
    TailCarriesNoBytes(tail);
    BytesAppend(copied, tail);
  }

  /**
   * Every event of a create_file trace is one of: a query on the source file; the
   * CimCreateFile call, right after the queries and only once they produced metadata; or an
   * event of the copy loop and the closes, only once CimCreateFile succeeded.
   */
  lemma EventOrigin(image: ImageHandle, relativePath: RelPath, src: SrcPath, w: Replies, k: nat)
    requires k < |CreateFileRun(image, relativePath, src, w).events|
    ensures var prep := Prepare(src, w.queries);
      var e := CreateFileRun(image, relativePath, src, w).events[k];
      && (k < |prep.events| ==> e == prep.events[k] && IsQuery(e))
      && (k == |prep.events| ==>
            prep.outcome.Ready?
            && e == Event.CreateObject(image, relativePath, prep.outcome.metadata, w.createStatus, w.stream))
      && (k > |prep.events| ==>
            prep.outcome.Ready? && !IsErr(w.createStatus)
            && e == CopyRun(prep.outcome.file, w.stream, w.copy).events[k - |prep.events| - 1])
  {
    PrepareOnlyQueries(src, w.queries);
  }

  // ---------------------------------------------------------------------------------------
  // The copy loop

  /**
   * Every successful read is passed on at once: the next call writes exactly the bytes read
   * (a zero-length read included) to the stream CimCreateFile returned, and every read asks
   * for the whole 64 KiB buffer.
   */
  lemma ReadsAreWrittenBack(image: ImageHandle, relativePath: RelPath, src: SrcPath, w: Replies, k: nat)
    requires k < |CreateFileRun(image, relativePath, src, w).events|
    requires CreateFileRun(image, relativePath, src, w).events[k].ReadFile?
    ensures var es := CreateFileRun(image, relativePath, src, w).events;
      && es[k].capacity == COPY_BUFFER_SIZE
      && (es[k].data.Ok? ==>
            k + 1 < |es| && es[k + 1].WriteStream? && es[k + 1].stream == w.stream
            && es[k + 1].written == es[k].data.value)
  {
    var prep := Prepare(src, w.queries);
    EventOrigin(image, relativePath, src, w, k);
    var n := |prep.events| + 1;
    CopyReadsWrittenBack(prep.outcome.file, w.stream, w.copy, k - n);
    var copy := CopyRun(prep.outcome.file, w.stream, w.copy);
    if copy.events[k - n].data.Ok? {
      EventOrigin(image, relativePath, src, w, k + 1);
    }
  }

  /** ReadsAreWrittenBack for the copy loop and the closes alone. */
  lemma CopyReadsWrittenBack(file: FileHandle, stream: StreamHandle, c: Copy, i: nat)
    requires i < |CopyRun(file, stream, c).events|
    requires CopyRun(file, stream, c).events[i].ReadFile?
    ensures var es := CopyRun(file, stream, c).events;
      && es[i].capacity == COPY_BUFFER_SIZE
      && (es[i].data.Ok? ==>
            i + 1 < |es| && es[i + 1].WriteStream? && es[i + 1].stream == stream
            && es[i + 1].written == es[i].data.value)
  {
    CopyEventAt(file, stream, c, i);
    if i < 2 * |c.chunks| {
      ChunkEventAt(file, stream, c.chunks, i);
      assert i % 2 == 0;
      CopyEventAt(file, stream, c, i + 1);
      ChunkEventAt(file, stream, c.chunks, i + 1);
    }
  }

  /** The bytes handed to CimWriteStream are exactly the bytes ReadFile returned, in order. */
  lemma WrittenEqualsRead(image: ImageHandle, relativePath: RelPath, src: SrcPath, w: Replies)
    ensures BytesWritten(CreateFileRun(image, relativePath, src, w).events)
         == BytesRead(CreateFileRun(image, relativePath, src, w).events)
  {
    var prep := Prepare(src, w.queries);
    PrepareOnlyQueries(src, w.queries);
    QueriesCarryNoBytes(prep.events);
    RunShape(image, relativePath, src, w);
    if prep.outcome.Ready? {
      var create := [Event.CreateObject(image, relativePath, prep.outcome.metadata, w.createStatus, w.stream)];
      TailCarriesNoBytes(create);
      BytesAppend(prep.events, create);
      if !IsErr(w.createStatus) {
        CopyRunBytes(prep.outcome.file, w.stream, w.copy);
        BytesAppend(prep.events + create, CopyRun(prep.outcome.file, w.stream, w.copy).events);
      }
    }
  }

  lemma {:induction false} TailCarriesNoBytes(es: seq<Event>)
    requires forall i :: 0 <= i < |es| ==> !es[i].ReadFile? || es[i].data.Err?
    requires forall i :: 0 <= i < |es| ==> !es[i].WriteStream?
    ensures BytesRead(es) == [] && BytesWritten(es) == []
    decreases |es|
  {
    if es != [] {
      TailCarriesNoBytes(es[..|es| - 1]);
    }
  }

  /** The loop ends after the first read of nothing: no later call reads the file again. */
  lemma NoReadAfterEmptyRead(image: ImageHandle, relativePath: RelPath, src: SrcPath, w: Replies, k: nat, j: nat)
    requires CopyEnds(w.copy)
    requires k < j < |CreateFileRun(image, relativePath, src, w).events|
    requires CreateFileRun(image, relativePath, src, w).events[k].ReadFile?
    requires CreateFileRun(image, relativePath, src, w).events[k].data == Ok([])
    ensures !CreateFileRun(image, relativePath, src, w).events[j].ReadFile?
  {
    var prep := Prepare(src, w.queries);
    EventOrigin(image, relativePath, src, w, k);
    EventOrigin(image, relativePath, src, w, j);
    var file := prep.outcome.file;
    var n := |prep.events| + 1;
    var chunks := w.copy.chunks;
    var copied := ChunkEvents(file, w.stream, chunks);
    var i := k - n;
    if i < |copied| {
      ChunkEventAt(file, w.stream, chunks, i);
      assert !Continues(chunks[i / 2]);
      assert i / 2 == |chunks| - 1 && w.copy.readError.None?;
      if j - n < |copied| {
        ChunkEventAt(file, w.stream, chunks, j - n);
      }
    }
  }

  // ---------------------------------------------------------------------------------------
  // Call ordering

  /** Nothing is written to, or closed on, a stream that a successful CimCreateFile did not return. */
  lemma StreamUseFollowsCreate(image: ImageHandle, relativePath: RelPath, src: SrcPath, w: Replies, k: nat)
    requires k < |CreateFileRun(image, relativePath, src, w).events|
    requires CreateFileRun(image, relativePath, src, w).events[k].WriteStream?
          || CreateFileRun(image, relativePath, src, w).events[k].CloseStream?
    ensures var es := CreateFileRun(image, relativePath, src, w).events;
      exists j :: 0 <= j < k && es[j].CreateObject? && !IsErr(es[j].status) && es[j].stream == es[k].stream
  {
    var es := CreateFileRun(image, relativePath, src, w).events;
    var prep := Prepare(src, w.queries);
    EventOrigin(image, relativePath, src, w, k);
    var j := |prep.events|;
    EventOrigin(image, relativePath, src, w, j);
    var file := prep.outcome.file;
    var copied := ChunkEvents(file, w.stream, w.copy.chunks);
    if k - j - 1 < |copied| {
      ChunkEventAt(file, w.stream, w.copy.chunks, k - j - 1);
    }
    assert es[j].CreateObject? && !IsErr(es[j].status) && es[j].stream == es[k].stream;
  }

  /**
   * An invalid security descriptor ends create_file before any image call: the trace holds
   * nothing but queries, and when it got as far as the security query the error is
   * STATUS_UNSUCCESSFUL.
   */
  lemma InvalidDescriptorAborts(image: ImageHandle, relativePath: RelPath, src: SrcPath, w: Replies)
    requires w.queries.security == Ok(NullDescriptor)
    ensures var run := CreateFileRun(image, relativePath, src, w);
      && run.result.Err?
      && (forall i :: 0 <= i < |run.events| ==> IsQuery(run.events[i]))
      && (run.events[|run.events| - 1].QuerySecurity? ==> run.result == Err(STATUS_UNSUCCESSFUL))
  {
    PrepareOnlyQueries(src, w.queries);
  }

  /**
   * On success the trace ends with the last write, of zero bytes, then CimCloseStream of the
   * stream, then CloseHandle of the source file, which succeeded.
   */
  lemma SuccessClosesStreamThenFile(image: ImageHandle, relativePath: RelPath, src: SrcPath, w: Replies)
    requires CopyEnds(w.copy)
    requires CreateFileRun(image, relativePath, src, w).result.Ok?
    ensures var es := CreateFileRun(image, relativePath, src, w).events;
      && w.queries.open.Ok?
      && |es| >= 3
      && es[|es| - 3].WriteStream? && es[|es| - 3].written == []
      && es[|es| - 2] == Event.CloseStream(w.stream)
      && es[|es| - 1].CloseHandle? && es[|es| - 1].file == w.queries.open.value && es[|es| - 1].closed.Ok?
  {
    var es := CreateFileRun(image, relativePath, src, w).events;
    var prep := Prepare(src, w.queries);
    PrepareOnlyQueries(src, w.queries);
    RunShape(image, relativePath, src, w);
    var file := prep.outcome.file;
    var chunks := w.copy.chunks;
    var copy := CopyRun(file, w.stream, w.copy);
    assert prep.outcome.Ready? && !IsErr(w.createStatus);
    assert copy.result.Ok?;
    assert w.copy.readError.None? && !IsErr(chunks[|chunks| - 1].status);
    assert copy.result == w.copy.close;
    assert copy.events == ChunkEvents(file, w.stream, chunks) + [Event.CloseStream(w.stream), Event.CloseHandle(file, w.copy.close)];
    assert es[|es| - 3] == copy.events[2 * |chunks| - 1];
    ChunkEventAt(file, w.stream, chunks, 2 * |chunks| - 1);
  }

  /** The stream and the source handle are each closed at most once, as the last two calls. */
  lemma ClosesComeLast(image: ImageHandle, relativePath: RelPath, src: SrcPath, w: Replies, k: nat)
    requires k < |CreateFileRun(image, relativePath, src, w).events|
    ensures var es := CreateFileRun(image, relativePath, src, w).events;
      && (es[k].CloseStream? ==> k == |es| - 2 && es[|es| - 1].CloseHandle?)
      && (es[k].CloseHandle? ==> k == |es| - 1 && es[|es| - 2].CloseStream?)
  {
    var prep := Prepare(src, w.queries);
    PrepareOnlyQueries(src, w.queries);
    EventOrigin(image, relativePath, src, w, k);
    var n := |prep.events| + 1;
    if k >= n {
      var file := prep.outcome.file;
      var copy := CopyRun(file, w.stream, w.copy);
      RunShape(image, relativePath, src, w);
      CopyEventAt(file, w.stream, w.copy, k - n);
      if k - n < 2 * |w.copy.chunks| {
        ChunkEventAt(file, w.stream, w.copy.chunks, k - n);
      }
    }
  }

  /**
   * A failure anywhere but the final CloseHandle closes nothing: neither the stream nor the
   * source handle is closed on those paths.
   */
  lemma FailureLeavesHandlesOpen(image: ImageHandle, relativePath: RelPath, src: SrcPath, w: Replies)
    requires CreateFileRun(image, relativePath, src, w).result.Err?
    ensures var es := CreateFileRun(image, relativePath, src, w).events;
      !es[|es| - 1].CloseHandle? ==> forall k :: 0 <= k < |es| ==> !es[k].CloseStream? && !es[k].CloseHandle?
  {
    var es := CreateFileRun(image, relativePath, src, w).events;
    PrepareOnlyQueries(src, w.queries);
    var prep := Prepare(src, w.queries);
    if !es[|es| - 1].CloseHandle? {
      forall k | 0 <= k < |es| ensures !es[k].CloseStream? && !es[k].CloseHandle? {
        EventOrigin(image, relativePath, src, w, k);
        var n := |prep.events| + 1;
        if k >= n {
          var file := prep.outcome.file;
          CopyEventAt(file, w.stream, w.copy, k - n);
          if k - n < 2 * |w.copy.chunks| {
            ChunkEventAt(file, w.stream, w.copy.chunks, k - n);
          }
        }
      }
    }
  }

  // ---------------------------------------------------------------------------------------
  // The metadata handed to CimCreateFile

  /**
   * CimCreateFile receives this image's handle, the relative path, and metadata built from the
   * queries: attributes and the four timestamps copied from the basic information; size 0 for
   * a directory and the queried size otherwise; the reparse data exactly when the file is a
   * reparse point; no security descriptor and no extended attributes. It is only reached
   * after a valid security descriptor was returned.
   */
  lemma MetadataCaptured(image: ImageHandle, relativePath: RelPath, src: SrcPath, w: Replies, k: nat)
    requires k < |CreateFileRun(image, relativePath, src, w).events|
    requires CreateFileRun(image, relativePath, src, w).events[k].CreateObject?
    ensures w.queries.open.Ok? && w.queries.basic.Ok?
    ensures w.queries.security.Ok? && w.queries.security.value.Descriptor?
    ensures var e := CreateFileRun(image, relativePath, src, w).events[k];
      var info := w.queries.basic.value;
      var m := e.metadata;
      && e.image == image && e.relativePath == relativePath
      && m.attributes == info.fileAttributes
      && m.creationTime.quadPart == info.creationTime && m.lastWriteTime.quadPart == info.lastWriteTime
      && m.changeTime.quadPart == info.changeTime && m.lastAccessTime.quadPart == info.lastAccessTime
      && (IsDirectory(info) ==> m.fileSize == 0)
      && (!IsDirectory(info) ==> w.queries.size.Ok? && m.fileSize == w.queries.size.value)
      && (m.reparseDataBuffer.Some? <==> IsReparsePoint(info))
      && (IsReparsePoint(info) ==>
            w.queries.reparse.Ok? && m.reparseDataBuffer == Some(w.queries.reparse.value)
            && m.reparseDataSize == |w.queries.reparse.value|)
      && (!IsReparsePoint(info) ==> m.reparseDataSize == 0)
      && m.securityDescriptorBuffer.None? && m.securityDescriptorSize == 0
      && m.eaBuffer.None? && m.eaBufferSize == 0
  {
    var prep := Prepare(src, w.queries);
    EventOrigin(image, relativePath, src, w, k);
    var file := prep.outcome.file;
    var copied := ChunkEvents(file, w.stream, w.copy.chunks);
    var n := |prep.events| + 1;
    if n <= k < n + |copied| {
      ChunkEventAt(file, w.stream, w.copy.chunks, k - n);
    }
  }

  /**
   * The size is queried only for a file that is not a directory, and the reparse data only
   * for a reparse point, with FSCTL_GET_REPARSE_POINT and a 16 KiB buffer.
   */
  lemma QueriesFollowAttributes(image: ImageHandle, relativePath: RelPath, src: SrcPath, w: Replies, k: nat)
    requires k < |CreateFileRun(image, relativePath, src, w).events|
    requires CreateFileRun(image, relativePath, src, w).events[k].QueryFileSize?
          || CreateFileRun(image, relativePath, src, w).events[k].QueryReparsePoint?
    ensures w.queries.open.Ok? && w.queries.basic.Ok?
    ensures var e := CreateFileRun(image, relativePath, src, w).events[k];
      && (e.QueryFileSize? ==> !IsDirectory(w.queries.basic.value))
      && (e.QueryReparsePoint? ==>
            IsReparsePoint(w.queries.basic.value) && e.ioControlCode == FSCTL_GET_REPARSE_POINT
            && e.capacity == MAXIMUM_REPARSE_DATA_BUFFER_SIZE)
  {
    var prep := Prepare(src, w.queries);
    PrepareOnlyQueries(src, w.queries);
    EventOrigin(image, relativePath, src, w, k);
    var n := |prep.events| + 1;
    if k >= n {
      var file := prep.outcome.file;
      CopyEventAt(file, w.stream, w.copy, k - n);
      if k - n < 2 * |w.copy.chunks| {
        ChunkEventAt(file, w.stream, w.copy.chunks, k - n);
      }
    }
  }

  // ---------------------------------------------------------------------------------------
  // create_file as one step of a build

  /** A call create_file may make: on the source file, CimCreateFile, or on the stream. */
  predicate IsFileCall(e: Event) {
    IsQuery(e) || e.ReadFile? || e.CloseHandle? || e.CreateObject? || e.WriteStream? || e.CloseStream?
  }

  /** The image and relative path of every CimCreateFile call of a trace, in order. */
  function Creations(es: seq<Event>): seq<(ImageHandle, RelPath)> {
    if es == [] then []
    else
      var e := es[|es| - 1];
      Creations(es[..|es| - 1]) + (if e.CreateObject? then [(e.image, e.relativePath)] else [])
  }

  lemma {:induction false} CreationsAppend(a: seq<Event>, b: seq<Event>)
    ensures Creations(a + b) == Creations(a) + Creations(b)
    decreases |b|
  {
    AppendLast(a, b);
    if b != [] {
      CreationsAppend(a, b[..|b| - 1]);
    }
  }

  lemma {:induction false} NoCreations(es: seq<Event>)
    requires forall i :: 0 <= i < |es| ==> !es[i].CreateObject?
    ensures Creations(es) == []
    decreases |es|
  {
    if es != [] {
      NoCreations(es[..|es| - 1]);
    }
  }

  /** The copy loop and the closes read, write and close, and make no other call. */
  lemma CopyCalls(file: FileHandle, stream: StreamHandle, c: Copy, i: nat)
    requires i < |CopyRun(file, stream, c).events|
    ensures var e := CopyRun(file, stream, c).events[i];
      e.ReadFile? || e.WriteStream? || e.CloseStream? || e.CloseHandle?
  {
    CopyEventAt(file, stream, c, i);
    if i < 2 * |c.chunks| {
      ChunkEventAt(file, stream, c.chunks, i);
    }
  }

  /** create_file never creates, commits, mounts or dismounts an image, and prints nothing. */
  lemma OnlyFileCalls(image: ImageHandle, relativePath: RelPath, src: SrcPath, w: Replies)
    ensures forall k :: 0 <= k < |CreateFileRun(image, relativePath, src, w).events| ==>
      IsFileCall(CreateFileRun(image, relativePath, src, w).events[k])
  {
    var prep := Prepare(src, w.queries);
    var es := CreateFileRun(image, relativePath, src, w).events;
    forall k | 0 <= k < |es|
      ensures IsFileCall(es[k])
    {
      EventOrigin(image, relativePath, src, w, k);
      if k > |prep.events| {
        CopyCalls(prep.outcome.file, w.stream, w.copy, k - |prep.events| - 1);
      }
    }
  }

  /**
   * create_file calls CimCreateFile once, on this image and relative path, exactly when the
   * queries produced metadata, and it can only succeed after making that call.
   */
  lemma CreatesOnce(image: ImageHandle, relativePath: RelPath, src: SrcPath, w: Replies)
    ensures Creations(CreateFileRun(image, relativePath, src, w).events)
         == if Prepare(src, w.queries).outcome.Ready? then [(image, relativePath)] else []
    ensures CreateFileRun(image, relativePath, src, w).result.Ok? ==> Prepare(src, w.queries).outcome.Ready?
  {
    var prep := Prepare(src, w.queries);
    PrepareOnlyQueries(src, w.queries);
    NoCreations(prep.events);
    RunShape(image, relativePath, src, w);
    if prep.outcome.Ready? {
      var create := [Event.CreateObject(image, relativePath, prep.outcome.metadata, w.createStatus, w.stream)];
      assert create[..0] == [];
      CreationsAppend(prep.events, create);
      if !IsErr(w.createStatus) {
        var copy := CopyRun(prep.outcome.file, w.stream, w.copy);
        forall i | 0 <= i < |copy.events|
          ensures !copy.events[i].CreateObject?
        {
          CopyCalls(prep.outcome.file, w.stream, w.copy, i);
        }
        NoCreations(copy.events);
        CreationsAppend(prep.events + create, copy.events);
      }
    }
  }
}
