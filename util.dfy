// The pure part of `util::toggle_privilege` in cimfs/src/lib.rs: the TOKEN_PRIVILEGES request
// it builds and how it reads the previous state that AdjustTokenPrivileges hands back.
// Opening the process token, looking up the privilege LUID and the adjustment itself are
// operating-system calls; the LUID and the returned record are parameters here.
module Util {
  import opened Core

  const SE_PRIVILEGE_ENABLED_BY_DEFAULT: bv32 := 0x0000_0001
  const SE_PRIVILEGE_ENABLED: bv32 := 0x0000_0002

  datatype Luid = Luid(lowPart: u32, highPart: i32)
  datatype LuidAndAttributes = LuidAndAttributes(luid: Luid, attributes: bv32)

  /** TOKEN_PRIVILEGES with its one-element Privileges array. */
  datatype TokenPrivileges = TokenPrivileges(privilegeCount: u32, privilege: LuidAndAttributes)

  /** size_of::<TOKEN_PRIVILEGES>(): a u32 count, then an 8-byte LUID and a u32 attribute word. */
  const TOKEN_PRIVILEGES_SIZE: u32 := 16

  /**
   * The request toggle_privilege passes to AdjustTokenPrivileges: one privilege, the looked-up
   * LUID, and SE_PRIVILEGE_ENABLED when enabling or no attribute bits when disabling.
   */
  function PrivilegeRequest(luid: Luid, enable: bool): (t: TokenPrivileges)
    ensures t.privilegeCount == 1
    ensures t.privilege.luid == luid
    ensures enable ==> t.privilege.attributes == SE_PRIVILEGE_ENABLED
    ensures !enable ==> t.privilege.attributes == 0
  {
    TokenPrivileges(1, LuidAndAttributes(luid, if enable then SE_PRIVILEGE_ENABLED else 0))
  }

  /**
   * previously_enabled: the returned record is a whole TOKEN_PRIVILEGES, it describes exactly
   * one privilege, and that privilege carried either the enabled or the enabled-by-default bit.
   */
  function PreviouslyEnabled(bytes: u32, previous: TokenPrivileges): (r: bool)
    ensures r <==>
      && bytes == TOKEN_PRIVILEGES_SIZE
      && previous.privilegeCount == 1
      && (previous.privilege.attributes & SE_PRIVILEGE_ENABLED != 0
          || previous.privilege.attributes & SE_PRIVILEGE_ENABLED_BY_DEFAULT != 0)
  {
    && bytes == TOKEN_PRIVILEGES_SIZE
    && previous.privilegeCount == 1
    && previous.privilege.attributes & (SE_PRIVILEGE_ENABLED | SE_PRIVILEGE_ENABLED_BY_DEFAULT) != 0
  }

  /**
   * Reading back a request as the previous state reports what the request asked for: an
   * enabling request reads as previously enabled and a disabling one does not.
   */
  lemma RequestReadsBack(luid: Luid, enable: bool)
    ensures PreviouslyEnabled(TOKEN_PRIVILEGES_SIZE, PrivilegeRequest(luid, enable)) == enable
  {
  }

  /** A short or partial record never counts as previously enabled, whatever it holds. */
  lemma ShortRecordNotEnabled(bytes: u32, previous: TokenPrivileges)
    requires bytes < TOKEN_PRIVILEGES_SIZE
    ensures !PreviouslyEnabled(bytes, previous)
  {
  }
}
