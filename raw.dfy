// The `raw` module of cimfs/src/lib.rs: the CimFS types the crate re-exports from its
// generated bindings, the LARGE_INTEGER conversion and the IOCTL code arithmetic of the
// Windows SDK's CTL_CODE macro (winioctl.h).
module Raw {
  import opened Core

  /** LARGE_INTEGER, seen through its QuadPart member. */
  datatype LargeInteger = LargeInteger(quadPart: i64)

  /** CIMFS_IMAGE_HANDLE; NullImage is the null pointer. */
  datatype ImageHandle = NullImage | ImageHandle(id: nat)

  /** CIMFS_STREAM_HANDLE; NullStream is the null pointer. */
  datatype StreamHandle = NullStream | StreamHandle(id: nat)

  /**
   * CIMFS_FILE_METADATA. Each of the three optional buffers is a pointer (None is null)
   * paired with its size field.
   */
  datatype FileMetadata = FileMetadata(
    attributes: bv32,
    creationTime: LargeInteger,
    lastWriteTime: LargeInteger,
    changeTime: LargeInteger,
    lastAccessTime: LargeInteger,
    fileSize: i64,
    securityDescriptorBuffer: Option<seq<byte>>,
    securityDescriptorSize: nat,
    reparseDataBuffer: Option<seq<byte>>,
    reparseDataSize: nat,
    eaBuffer: Option<seq<byte>>,
    eaBufferSize: nat)

  /** to_large_int: the value is stored unchanged in QuadPart. */
  function ToLargeInt(i: i64): (r: LargeInteger)
    ensures r.quadPart == i
  {
    LargeInteger(i)
  }

  /** Two different timestamps never become the same LARGE_INTEGER. */
  lemma ToLargeIntInjective(i: i64, j: i64)
    ensures ToLargeInt(i) == ToLargeInt(j) <==> i == j
  {
  }

  // Device, method and access constants from the Windows SDK.
  const FILE_DEVICE_FILE_SYSTEM: bv32 := 0x0000_0009
  const METHOD_BUFFERED: bv32 := 0
  const FILE_ANY_ACCESS: bv32 := 0

  /** The field ranges CTL_CODE is designed for. */
  predicate CtlFieldsInRange(deviceType: bv32, functionCode: bv32, transferMethod: bv32, access: bv32) {
    deviceType < 0x1_0000 && functionCode < 0x1000 && transferMethod < 4 && access < 4
  }

  /**
   * ctl_code: (DeviceType << 16) | (Access << 14) | (Function << 2) | Method on 32-bit
   * unsigned values, so bits shifted past bit 31 are lost. For in-range fields the four
   * fields occupy disjoint bit ranges: each one is recovered by a shift and a mask.
   */
  function CtlCode(deviceType: bv32, functionCode: bv32, transferMethod: bv32, access: bv32): (code: bv32)
    ensures CtlFieldsInRange(deviceType, functionCode, transferMethod, access) ==> code >> 16 == deviceType
    ensures CtlFieldsInRange(deviceType, functionCode, transferMethod, access) ==> (code >> 14) & 0x3 == access
    ensures CtlFieldsInRange(deviceType, functionCode, transferMethod, access) ==> (code >> 2) & 0xFFF == functionCode
    ensures CtlFieldsInRange(deviceType, functionCode, transferMethod, access) ==> code & 0x3 == transferMethod
  {
    (deviceType << 16) | (access << 14) | (functionCode << 2) | transferMethod
  }

  /** For in-range fields the bitwise or is a plain weighted sum: no field carries into another. */
  lemma CtlCodeIsWeightedSum(deviceType: bv32, functionCode: bv32, transferMethod: bv32, access: bv32)
    requires CtlFieldsInRange(deviceType, functionCode, transferMethod, access)
    ensures CtlCode(deviceType, functionCode, transferMethod, access)
         == deviceType * 0x1_0000 + access * 0x4000 + functionCode * 4 + transferMethod
  {
  }

  /** Device-type bits above bit 15 are shifted out of the 32-bit code and have no effect. */
  lemma CtlCodeDropsHighDeviceBits(deviceType: bv32, functionCode: bv32, transferMethod: bv32, access: bv32)
    ensures CtlCode(deviceType, functionCode, transferMethod, access)
         == CtlCode(deviceType & 0xFFFF, functionCode, transferMethod, access)
  {
  }

  /** FSCTL_GET_REPARSE_POINT = CTL_CODE(FILE_DEVICE_FILE_SYSTEM, 42, METHOD_BUFFERED, FILE_ANY_ACCESS). */
  const FSCTL_GET_REPARSE_POINT: bv32 := CtlCode(FILE_DEVICE_FILE_SYSTEM, 42, METHOD_BUFFERED, FILE_ANY_ACCESS)

  /** With the SDK's constants the control code is 0x000900A8. */
  lemma FsctlGetReparsePointValue()
    ensures FSCTL_GET_REPARSE_POINT == 0x0009_00A8
    ensures FSCTL_GET_REPARSE_POINT >> 16 == FILE_DEVICE_FILE_SYSTEM
    ensures (FSCTL_GET_REPARSE_POINT >> 2) & 0xFFF == 42
  {
  }
}
