/** The commands of an editor drive. */
module EditorCommands {
  import opened Bytes
  import opened DirChain

  datatype EditorCommand =
    | OpenRoot(rev: Option<u64>, token: Token)
    | DeleteEntry(path: Path, deleteRev: u64, dirToken: Token)
    | AddDir(path: Path, parentToken: Token, childToken: Token, copyFrom: Option<(Path, u64)>)
    | OpenDir(path: Path, parentToken: Token, childToken: Token, baseRev: u64)
    | ChangeDirProp(dirToken: Token, name: seq<byte>, value: Option<seq<byte>>)
    | CloseDir(dirToken: Token)
    | AbsentDir(path: Path, parentToken: Token)
    | AddFile(path: Path, dirToken: Token, fileToken: Token, copyFrom: Option<(Path, u64)>)
    | OpenFile(path: Path, dirToken: Token, fileToken: Token, baseRev: u64)
    | ApplyTextDelta(fileToken: Token, baseChecksum: Option<seq<byte>>)
    | TextDeltaChunk(fileToken: Token, chunk: seq<byte>)
    | TextDeltaEnd(fileToken: Token)
    | ChangeFileProp(fileToken: Token, name: seq<byte>, value: Option<seq<byte>>)
    | CloseFile(fileToken: Token, textChecksum: Option<seq<byte>>)
    | AbsentFile(path: Path, parentToken: Token)
    | CloseEdit
    | AbortEdit
}
