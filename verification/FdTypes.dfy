/** Entries of the file-descriptor table that files and pipes share. */
module FdTypes {
  const FD_COUNT := 32
  const FD_BASE := 3

  datatype FdKind = NoKind | BootFs | PfsFile | PipeRead | PipeWrite

  /** The open-flag bits, one boolean a bit. */
  datatype Flags = Flags(read: bool, write: bool, create: bool, truncate: bool, append: bool, createNew: bool)

  /** `index` is a table entry for files and a pipe for pipe ends. */
  datatype Fd = Fd(open: bool, kind: FdKind, flags: Flags, len: nat, offset: nat, index: nat)

  const NO_FLAGS := Flags(false, false, false, false, false, false)
  const EMPTY_FD := Fd(false, NoKind, NO_FLAGS, 0, 0, 0)
}
