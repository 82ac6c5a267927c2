// cimfs/src/image.rs: an Image wraps one CimFS image handle. create_file captures a source
// file's metadata through Win32 queries, creates the file in the image and copies its data
// through a 64 KiB buffer. The replies the host gives along the way are gathered in a
// Replies value; CreateFileRun is the trace (events and result) create_file produces for
// those replies, and the lemmas below state what every such trace satisfies.
module Images {
  import opened Core
  import opened Raw
  import opened Paths
  import opened Environment

  /** MAXIMUM_REPARSE_DATA_BUFFER_SIZE (16 KiB): the capacity of the reparse capture buffer. */
  const MAXIMUM_REPARSE_DATA_BUFFER_SIZE: nat := 16 * 1024

  /** The size of the copy buffer create_file reads into. */
  const COPY_BUFFER_SIZE: nat := 65536

  const FILE_ATTRIBUTE_DIRECTORY: bv32 := 0x0000_0010
  const FILE_ATTRIBUTE_REPARSE_POINT: bv32 := 0x0000_0400

  /** STATUS_UNSUCCESSFUL (NTSTATUS 0xC0000001) converted to an error: HRESULT 0xD0000001. */
  const STATUS_UNSUCCESSFUL: Error := Error(HResultOf(0xD000_0001))

  predicate IsDirectory(info: BasicInfo) {
    info.fileAttributes & FILE_ATTRIBUTE_DIRECTORY != 0
  }

  predicate IsReparsePoint(info: BasicInfo) {
    info.fileAttributes & FILE_ATTRIBUTE_REPARSE_POINT != 0
  }

  // ---------------------------------------------------------------------------------------
  // The trace of create_file

  /** One pass of the copy loop: the bytes a read returned and the status of writing them. */
  datatype Chunk = Chunk(data: seq<byte>, status: HResult)

  /** The replies to the queries on the source file, in call order (unused ones are arbitrary). */
  datatype Queries = Queries(
    open: Result<FileHandle>,
    basic: Result<BasicInfo>,
    size: Result<i64>,
    reparse: Result<seq<byte>>,
    security: Result<Descriptor>)

  /** The passes of the copy loop, the failed read that ended it if any, and the final CloseHandle reply. */
  datatype Copy = Copy(chunks: seq<Chunk>, readError: Option<Error>, close: Result<()>)

  /** Every reply the host gives create_file. */
  datatype Replies = Replies(queries: Queries, createStatus: HResult, stream: StreamHandle, copy: Copy)

  /** A pass after which the loop goes on: something was read and its write succeeded. */
  predicate Continues(c: Chunk) {
    |c.data| > 0 && !IsErr(c.status)
  }

  /**
   * The shape of every sequence of passes the loop can make: it goes on after each pass but
   * the last, and it ends on a failed read, or on a pass that read nothing or failed to write.
   */
  predicate CopyEnds(c: Copy) {
    if c.readError.Some? then
      forall i :: 0 <= i < |c.chunks| ==> Continues(c.chunks[i])
    else
      c.chunks != [] && !Continues(c.chunks[|c.chunks| - 1])
      && forall i :: 0 <= i < |c.chunks| - 1 ==> Continues(c.chunks[i])
  }

  /** The bytes of a sequence of passes, in order. */
  function Data(chunks: seq<Chunk>): seq<byte> {
    if chunks == [] then [] else Data(chunks[..|chunks| - 1]) + chunks[|chunks| - 1].data
  }

  /** The calls a sequence of passes makes: a read of the whole buffer, then a write of what it returned. */
  function ChunkEvents(file: FileHandle, stream: StreamHandle, chunks: seq<Chunk>): (es: seq<Event>)
    ensures |es| == 2 * |chunks|
  {
    if chunks == [] then []
    else
      var c := chunks[|chunks| - 1];
      ChunkEvents(file, stream, chunks[..|chunks| - 1])
        + [Event.ReadFile(file, COPY_BUFFER_SIZE, Ok(c.data)), Event.WriteStream(stream, c.data, c.status)]
  }

  /** What the calls before CimCreateFile end in: an error, or the open file and its metadata. */
  datatype Outcome = Failed(error: Error) | Ready(file: FileHandle, metadata: FileMetadata)

  datatype Stage = Stage(events: seq<Event>, outcome: Outcome)

  /** The calls create_file makes before it touches the image, and what they end in. */
  function Prepare(src: SrcPath, w: Queries): Stage {
    var start := [Event.CreateFile(src, w.open)];
    if w.open.Err? then Stage(start, Failed(w.open.error)) else
    var file := w.open.value;
    var queried := start + [Event.QueryBasicInfo(file, w.basic)];
    if w.basic.Err? then Stage(queried, Failed(w.basic.error)) else
    var rest := Examine(file, w.basic.value, w);
    Stage(queried + rest.events, rest.outcome)
  }

  /**
   * The queries that follow the basic information: the size (files only), the reparse data
   * (reparse points only) and the security descriptor, and the metadata built from them.
   */
  function Examine(file: FileHandle, info: BasicInfo, w: Queries): Stage {
    var sized := if IsDirectory(info) then [] else [Event.QueryFileSize(file, w.size)];
    if !IsDirectory(info) && w.size.Err? then Stage(sized, Failed(w.size.error)) else
    var fileSize := if IsDirectory(info) then 0 else w.size.value;
    var reparsed :=
      if IsReparsePoint(info)
      then sized + [Event.QueryReparsePoint(file, FSCTL_GET_REPARSE_POINT, MAXIMUM_REPARSE_DATA_BUFFER_SIZE, w.reparse)]
      else sized;
    if IsReparsePoint(info) && w.reparse.Err? then Stage(reparsed, Failed(w.reparse.error)) else
    var reparse: Option<seq<byte>> := if IsReparsePoint(info) then Some(w.reparse.value) else None;
    var secured := reparsed + [Event.QuerySecurity(file, w.security)];
    if w.security.Err? then Stage(secured, Failed(w.security.error))
    else if w.security.value.NullDescriptor? then Stage(secured, Failed(STATUS_UNSUCCESSFUL))
    else
      var metadata := FileMetadata(
        info.fileAttributes,
        ToLargeInt(info.creationTime), ToLargeInt(info.lastWriteTime),
        ToLargeInt(info.changeTime), ToLargeInt(info.lastAccessTime),
        fileSize,
        None, 0,
        reparse, if reparse.Some? then |reparse.value| else 0,
        None, 0);
      Stage(secured, Ready(file, metadata))
  }

  datatype Run = Run(events: seq<Event>, result: Result<()>)

  /** The copy loop and what follows it: close the stream, then the source handle. */
  function CopyRun(file: FileHandle, stream: StreamHandle, w: Copy): Run {
    var copied := ChunkEvents(file, stream, w.chunks);
    if w.readError.Some? then
      Run(copied + [Event.ReadFile(file, COPY_BUFFER_SIZE, Err(w.readError.value))], Err(w.readError.value))
    else if w.chunks != [] && IsErr(w.chunks[|w.chunks| - 1].status) then
      Run(copied, Err(Error(w.chunks[|w.chunks| - 1].status)))
    else
      Run(copied + [Event.CloseStream(stream), Event.CloseHandle(file, w.close)], w.close)
  }

  /** Everything Image::create_file does, for the given replies. */
  function CreateFileRun(image: ImageHandle, relativePath: RelPath, src: SrcPath, w: Replies): Run {
    var prep := Prepare(src, w.queries);
    if prep.outcome.Failed? then Run(prep.events, Err(prep.outcome.error)) else
    var created := prep.events + [Event.CreateObject(image, relativePath, prep.outcome.metadata, w.createStatus, w.stream)];
    if IsErr(w.createStatus) then Run(created, Err(Error(w.createStatus))) else
    var copy := CopyRun(prep.outcome.file, w.stream, w.copy);
    Run(created + copy.events, copy.result)
  }

  // ---------------------------------------------------------------------------------------
  // The image

  class Image {
    const name: string
    const rootFolder: SrcPath
    var imageHandle: ImageHandle

    /** Image::new: the handle starts null. */
    constructor(rootFolder: SrcPath, name: string)
      ensures this.rootFolder == rootFolder && this.name == name
      ensures imageHandle == NullImage
    {
      this.rootFolder := rootFolder;
      this.name := name;
      imageHandle := NullImage;
    }

    /**
     * Image::create: one CimCreateImage call with the root folder, the existing image to
     * fork from (None is a null name) and this image's name. The handle it returns is kept
     * only when the status is a success code; otherwise that status is the error.
     */
    method Create(host: Host, existing: Option<string>) returns (r: Result<()>)
      modifies this, host
      ensures |host.log| == |old(host.log)| + 1 && host.log[..|old(host.log)|] == old(host.log)
      ensures var e := host.log[|old(host.log)|];
        && e.CreateImage? && e.root == rootFolder && e.existing == existing && e.name == name
        && (IsErr(e.status) ==> r == Err(Error(e.status)) && imageHandle == old(imageHandle))
        && (!IsErr(e.status) ==> r == Ok(()) && imageHandle == e.image)
    {
      var status, handle := host.CimCreateImage(rootFolder, existing, name);
      if IsErr(status) {
        return Err(Error(status));
      }
      imageHandle := handle;
      r := Ok(());
    }

    /**
     * Image::create_file: the calls made and the result are those of CreateFileRun for the
     * replies the host gave, which are returned as a ghost value; the copy loop's passes have
     * the shape CopyEnds describes.
     */
    method CreateFile(host: Host, relativePath: RelPath, src: SrcPath) returns (r: Result<()>, ghost w: Replies)
      modifies host
      ensures CopyEnds(w.copy)
      ensures host.log == old(host.log) + CreateFileRun(imageHandle, relativePath, src, w).events
      ensures r == CreateFileRun(imageHandle, relativePath, src, w).result
    {
      ghost var unused := Copy([], Some(STATUS_UNSUCCESSFUL), Ok(()));
      var outcome, queries := Capture(host, src);
      if outcome.Failed? {
        return Err(outcome.error), Replies(queries, 0, NullStream, unused);
      }
      var status, stream := host.CimCreateFile(imageHandle, relativePath, outcome.metadata);
      if IsErr(status) {
        return Err(Error(status)), Replies(queries, status, stream, unused);
      }
      ghost var copy;
      r, copy := CopyData(host, outcome.file, stream);
      w := Replies(queries, status, stream, copy);
    }

    /**
     * Image::commit: one CimCommitImage call on the current handle, whose status is the
     * result. The handle is left as it is.
     */
    method Commit(host: Host) returns (r: Result<()>)
      modifies host
      ensures |host.log| == |old(host.log)| + 1 && host.log[..|old(host.log)|] == old(host.log)
      ensures var e := host.log[|old(host.log)|];
        e.CommitImage? && e.image == imageHandle && r == StatusResult(e.status)
    {
      var status := host.CimCommitImage(imageHandle);
      r := StatusResult(status);
    }
  }

  /**
   * The part of create_file before CimCreateFile: open the source, query its basic information,
   * its size (files only), its reparse data (reparse points only) and its security descriptor,
   * and build the metadata, which is Prepare for the replies the host gave.
   */
  method Capture(host: Host, src: SrcPath) returns (outcome: Outcome, ghost w: Queries)
    modifies host
    ensures host.log == old(host.log) + Prepare(src, w).events
    ensures outcome == Prepare(src, w).outcome
  {
    w := Queries(Err(STATUS_UNSUCCESSFUL), Err(STATUS_UNSUCCESSFUL), Err(STATUS_UNSUCCESSFUL),
                 Err(STATUS_UNSUCCESSFUL), Err(STATUS_UNSUCCESSFUL));
    var handle := host.CreateFileW(src);
    w := w.(open := handle);
    if handle.Err? {
      return Failed(handle.error), w;
    }
    var file := handle.value;
    var basicInfo := host.GetFileBasicInfo(file);
    w := w.(basic := basicInfo);
    if basicInfo.Err? {
      return Failed(basicInfo.error), w;
    }
    outcome, w := ExamineFile(host, file, basicInfo.value, w);
  }

  /** The queries after the basic information, as Examine describes them. */
  method ExamineFile(host: Host, file: FileHandle, info: BasicInfo, ghost w0: Queries) returns (outcome: Outcome, ghost w: Queries)
    modifies host
    ensures w.open == w0.open && w.basic == w0.basic
    ensures host.log == old(host.log) + Examine(file, info, w).events
    ensures outcome == Examine(file, info, w).outcome
  {
    w := w0;
    var metadata := FileMetadata(
      info.fileAttributes,
      ToLargeInt(info.creationTime), ToLargeInt(info.lastWriteTime),
      ToLargeInt(info.changeTime), ToLargeInt(info.lastAccessTime),
      0, None, 0, None, 0, None, 0);
    if info.fileAttributes & FILE_ATTRIBUTE_DIRECTORY != 0 {
      metadata := metadata.(fileSize := 0);
    } else {
      var fileSize := host.GetFileSizeEx(file);
      w := w.(size := fileSize);
      if fileSize.Err? {
        return Failed(fileSize.error), w;
      }
      metadata := metadata.(fileSize := fileSize.value);
    }
    if info.fileAttributes & FILE_ATTRIBUTE_REPARSE_POINT != 0 {
      var reparse := host.DeviceIoControl(file, FSCTL_GET_REPARSE_POINT, MAXIMUM_REPARSE_DATA_BUFFER_SIZE);
      w := w.(reparse := reparse);
      if reparse.Err? {
        return Failed(reparse.error), w;
      }
      metadata := metadata.(reparseDataBuffer := Some(reparse.value), reparseDataSize := |reparse.value|);
    }
    var descriptor := host.GetSecurityInfo(file);
    w := w.(security := descriptor);
    if descriptor.Err? {
      return Failed(descriptor.error), w;
    }
    if descriptor.value.NullDescriptor? {
      return Failed(STATUS_UNSUCCESSFUL), w;
    }
    outcome := Ready(file, metadata);
  }

  /**
   * The copy loop of create_file and the two closes after it: the calls are those of CopyRun
   * for the passes made.
   */
  method CopyData(host: Host, file: FileHandle, stream: StreamHandle) returns (r: Result<()>, ghost w: Copy)
    modifies host
    ensures CopyEnds(w)
    ensures host.log == old(host.log) + CopyRun(file, stream, w).events
    ensures r == CopyRun(file, stream, w).result
  {
    ghost var chunks, readError;
    r, chunks, readError := CopyChunks(host, file, stream);
    w := Copy(chunks, readError, Ok(()));
    if r.Err? {
      return r, w;
    }
    host.CimCloseStream(stream);
    var closed := host.CloseHandle(file);
    w := w.(close := closed);
    r := closed;
  }

  /**
   * The loop itself: read up to COPY_BUFFER_SIZE bytes, write exactly those bytes, and stop
   * after a read of nothing; a failed read or write ends it with that error. total, the count
   * of bytes read, is a u32 that wraps around.
   */
  method CopyChunks(host: Host, file: FileHandle, stream: StreamHandle)
    returns (r: Result<()>, ghost chunks: seq<Chunk>, ghost readError: Option<Error>)
    modifies host
    ensures CopyEnds(Copy(chunks, readError, Ok(())))
    ensures readError.Some? ==>
      && host.log == old(host.log) + ChunkEvents(file, stream, chunks)
           + [Event.ReadFile(file, COPY_BUFFER_SIZE, Err(readError.value))]
      && r == Err(readError.value)
    ensures readError.None? ==>
      && host.log == old(host.log) + ChunkEvents(file, stream, chunks)
      && r == (if IsErr(chunks[|chunks| - 1].status) then Err(Error(chunks[|chunks| - 1].status)) else Ok(()))
  {
    ghost var log0 := host.log;
    var total: u32 := 0;
    chunks := [];
    while true
      invariant host.log == log0 + ChunkEvents(file, stream, chunks)
      invariant forall i :: 0 <= i < |chunks| ==> Continues(chunks[i])
      invariant total as int == |Data(chunks)| % TWO_TO_THE_32
      decreases host.unread
    {
      var read := host.ReadFile(file, COPY_BUFFER_SIZE);
      if read.Err? {
        return Err(read.error), chunks, Some(read.error);
      }
      total := ((total as int + |read.value|) % TWO_TO_THE_32) as u32;
      var status := host.CimWriteStream(stream, read.value);
      ghost var before := chunks;
      chunks := chunks + [Chunk(read.value, status)];
      assert chunks[..|chunks| - 1] == before;
      assert Data(chunks) == Data(before) + read.value;
      if IsErr(status) {
        return Err(Error(status)), chunks, None;
      }
      if |read.value| == 0 {
        break;
      }
    }
    r, readError := Ok(()), None;
  }
}
