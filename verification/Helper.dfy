/** What the filesystem helper's commands share (tuxstack-fs-helper). */
module Helper {
  import opened Common

  datatype OsError = OsError(code: nat)

  /** HelperErrorCode, with the operating system's errors kept apart. */
  datatype HelperError = InvalidToken | PathEscapeRejected | SymlinkLoop | Os(error: OsError)

  /** One path component that names a file. */
  predicate FileComponent(b: Bytes) { b != [] && b != [DOT] && b != [DOT, DOT] && SLASH !in b && 0 !in b }

  type Name = b: Bytes | FileComponent(b) witness [0x61]
}
