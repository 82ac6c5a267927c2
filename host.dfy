// The operating system and the CimFS engine as the crate sees them: every Win32 or CimFS
// call the core makes is a method of Host that appends one Event, holding the arguments and
// the reply, to the host's log. Replies are chosen by the host, within what the API
// promises (a read never returns more than was asked for, nor more than the file still
// holds). What the calls do inside Windows is not part of this model.
module Environment {
  import opened Core
  import opened Raw
  import opened Paths

  /** A Win32 HANDLE to an open source file. */
  datatype FileHandle = FileHandle(id: nat)

  /** FILE_BASIC_INFO. */
  datatype BasicInfo = BasicInfo(
    creationTime: i64,
    lastAccessTime: i64,
    lastWriteTime: i64,
    changeTime: i64,
    fileAttributes: bv32)

  /** PSECURITY_DESCRIPTOR as GetSecurityInfo leaves it; NullDescriptor is the invalid (null) one. */
  datatype Descriptor = NullDescriptor | Descriptor(bytes: seq<byte>)

  /** GUID / _GUID. */
  datatype Guid = Guid(data1: bv32, data2: bv16, data3: bv16, data4: seq<byte>)

  datatype Event =
    | CreateFile(path: SrcPath, handle: Result<FileHandle>)
    | QueryBasicInfo(file: FileHandle, info: Result<BasicInfo>)
    | QueryFileSize(file: FileHandle, size: Result<i64>)
    | QueryReparsePoint(file: FileHandle, ioControlCode: bv32, capacity: nat, data: Result<seq<byte>>)
    | QuerySecurity(file: FileHandle, descriptor: Result<Descriptor>)
    | ReadFile(file: FileHandle, capacity: nat, data: Result<seq<byte>>)
    | CloseHandle(file: FileHandle, closed: Result<()>)
    | CreateImage(root: SrcPath, existing: Option<string>, name: string, status: HResult, image: ImageHandle)
    | CreateObject(image: ImageHandle, relativePath: RelPath, metadata: FileMetadata, status: HResult, stream: StreamHandle)
    | WriteStream(stream: StreamHandle, written: seq<byte>, status: HResult)
    | CloseStream(stream: StreamHandle)
    | CommitImage(image: ImageHandle, status: HResult)
    | MountImage(root: SrcPath, name: string, volume: Option<string>, mounted: Result<Guid>)
    | MountVolume(root: SrcPath, name: string, mountPoint: string, outcome: Result<()>)
    | DismountImage(volumeId: Guid, status: HResult)
    | PrintLine(text: string)

  /** The replies ReadFile may give: at most capacity bytes and at most what is left unread. */
  predicate ReadReply(capacity: nat, unread: nat, data: Result<seq<byte>>) {
    data.Ok? ==> |data.value| <= capacity && |data.value| <= unread
  }

  class Host {
    /** Every call made so far, in order. */
    var log: seq<Event>
    /** How many bytes of the most recently opened file are still to be read. */
    var unread: nat

    /** CreateFileW on a source path; a successful open makes a new file current. */
    method CreateFileW(path: SrcPath) returns (handle: Result<FileHandle>)
      modifies this
      ensures log == old(log) + [Event.CreateFile(path, handle)]
    {
      handle :| true;
      var size: nat :| true;
      if handle.Ok? {
        unread := size;
      }
      log := log + [Event.CreateFile(path, handle)];
    }

    /** GetFileInformationByHandleEx with FileBasicInfo. */
    method GetFileBasicInfo(file: FileHandle) returns (info: Result<BasicInfo>)
      modifies this
      ensures log == old(log) + [Event.QueryBasicInfo(file, info)] && unread == old(unread)
    {
      info :| true;
      log := log + [Event.QueryBasicInfo(file, info)];
    }

    /** GetFileSizeEx. */
    method GetFileSizeEx(file: FileHandle) returns (size: Result<i64>)
      modifies this
      ensures log == old(log) + [Event.QueryFileSize(file, size)] && unread == old(unread)
    {
      size :| true;
      log := log + [Event.QueryFileSize(file, size)];
    }

    /** DeviceIoControl with an output buffer of capacity bytes; the reply fits the buffer. */
    method DeviceIoControl(file: FileHandle, ioControlCode: bv32, capacity: nat) returns (data: Result<seq<byte>>)
      modifies this
      ensures log == old(log) + [Event.QueryReparsePoint(file, ioControlCode, capacity, data)] && unread == old(unread)
      ensures data.Ok? ==> |data.value| <= capacity
    {
      var none: Result<seq<byte>> := Ok([]);
      assert none.Ok? ==> |none.value| <= capacity;
      data :| data.Ok? ==> |data.value| <= capacity;
      log := log + [Event.QueryReparsePoint(file, ioControlCode, capacity, data)];
    }

    /** GetSecurityInfo asking for the security descriptor of an open file. */
    method GetSecurityInfo(file: FileHandle) returns (descriptor: Result<Descriptor>)
      modifies this
      ensures log == old(log) + [Event.QuerySecurity(file, descriptor)] && unread == old(unread)
    {
      descriptor :| true;
      log := log + [Event.QuerySecurity(file, descriptor)];
    }

    /** ReadFile into a buffer of capacity bytes; the bytes returned are consumed. */
    method ReadFile(file: FileHandle, capacity: nat) returns (data: Result<seq<byte>>)
      modifies this
      ensures log == old(log) + [Event.ReadFile(file, capacity, data)]
      ensures ReadReply(capacity, old(unread), data)
      ensures data.Ok? ==> unread == old(unread) - |data.value|
      ensures data.Err? ==> unread == old(unread)
    {
      var left := unread;
      var none: Result<seq<byte>> := Ok([]);
      assert ReadReply(capacity, left, none);
      data :| ReadReply(capacity, left, data);
      assert ReadReply(capacity, left, data);
      assert data.Ok? ==> |data.value| <= left;
      if data.Ok? {
        unread := unread - |data.value|;
      }
      log := log + [Event.ReadFile(file, capacity, data)];
    }

    /** CloseHandle. */
    method CloseHandle(file: FileHandle) returns (closed: Result<()>)
      modifies this
      ensures log == old(log) + [Event.CloseHandle(file, closed)] && unread == old(unread)
    {
      closed :| true;
      log := log + [Event.CloseHandle(file, closed)];
    }

    /** CimCreateImage: the status, and the handle written through its out-parameter. */
    method CimCreateImage(root: SrcPath, existing: Option<string>, name: string) returns (status: HResult, image: ImageHandle)
      modifies this
      ensures log == old(log) + [Event.CreateImage(root, existing, name, status, image)] && unread == old(unread)
    {
      status :| true;
      image :| true;
      log := log + [Event.CreateImage(root, existing, name, status, image)];
    }

    /** CimCreateFile: the status, and the stream handle written through its out-parameter. */
    method CimCreateFile(image: ImageHandle, path: RelPath, metadata: FileMetadata) returns (status: HResult, stream: StreamHandle)
      modifies this
      ensures log == old(log) + [Event.CreateObject(image, path, metadata, status, stream)] && unread == old(unread)
    {
      status :| true;
      stream :| true;
      log := log + [Event.CreateObject(image, path, metadata, status, stream)];
    }

    /** CimWriteStream of the given bytes. */
    method CimWriteStream(stream: StreamHandle, data: seq<byte>) returns (status: HResult)
      modifies this
      ensures log == old(log) + [Event.WriteStream(stream, data, status)] && unread == old(unread)
    {
      status :| true;
      log := log + [Event.WriteStream(stream, data, status)];
    }

    /** CimCloseStream, which reports nothing. */
    method CimCloseStream(stream: StreamHandle)
      modifies this
      ensures log == old(log) + [Event.CloseStream(stream)] && unread == old(unread)
    {
      log := log + [Event.CloseStream(stream)];
    }

    /** CimCommitImage. */
    method CimCommitImage(image: ImageHandle) returns (status: HResult)
      modifies this
      ensures log == old(log) + [Event.CommitImage(image, status)] && unread == old(unread)
    {
      status :| true;
      log := log + [Event.CommitImage(image, status)];
    }

    /** Image::mount, which is not part of this model: an engine step that yields the volume's GUID. */
    method MountImage(root: SrcPath, name: string, volume: Option<string>) returns (mounted: Result<Guid>)
      modifies this
      ensures log == old(log) + [Event.MountImage(root, name, volume, mounted)] && unread == old(unread)
    {
      mounted :| true;
      log := log + [Event.MountImage(root, name, volume, mounted)];
    }

    /** Image::mount_volume, which is not part of this model: an engine step with a status. */
    method MountVolume(root: SrcPath, name: string, mountPoint: string) returns (status: Result<()>)
      modifies this
      ensures log == old(log) + [Event.MountVolume(root, name, mountPoint, status)] && unread == old(unread)
    {
      status :| true;
      log := log + [Event.MountVolume(root, name, mountPoint, status)];
    }

    /** CimDismountImage. */
    method CimDismountImage(volume: Guid) returns (status: HResult)
      modifies this
      ensures log == old(log) + [Event.DismountImage(volume, status)] && unread == old(unread)
    {
      status :| true;
      log := log + [Event.DismountImage(volume, status)];
    }

    /** println! to standard output. */
    method PrintLine(text: string)
      modifies this
      ensures log == old(log) + [Event.PrintLine(text)] && unread == old(unread)
    {
      log := log + [Event.PrintLine(text)];
    }
  }
}
