# Verified models of an `ra_svn` client

Dafny models of the parts of this Subversion client whose correctness is hardest to see, with proofs of
what they are for. The models follow the Rust code branch by branch: code that updates state is
methods and classes proved against specification functions, and what is promised is proved about
those functions, for all inputs.

- **svndiff** (`Base128`, `SvndiffFormat`, `StreamParser`, `Instructions`, `Sections`, `DeltaForms`, `Applier`,
  `SplitInvariance`, `LongHeader`, `CutOutcomes`, `FileRefinement`, `EmptyView`, `Encoder`, `RoundTrip`,
  `SourceViews`): the integer codec, the resumable window parser over its compacting buffer, the instruction interpreter, both appliers and the
  encoder. How a stream is cut into chunks matters exactly for over-long headers; the file-backed
  applier refines the in-memory one; full texts survive encoding and applying; and which windows with source
  views a stream may carry, and what they make of the base, is settled for all of them.
- **The item layer of ra_svn** (`Decimal`, `Utf8`, `Items`, `Grammar`, `Connection`, `ItemRoundTrip`,
  `Spelling`, `Prefixes`): the reader with an explicit stack over a refilling buffer is a recursive-descent
  parser of the grammar, undoes the printer on exactly the items that can be written, and accepts exactly
  the texts that spell an item.
- **Editor commands** (`Paths`, `EditorCommands`, `CommandWords`, `EditorCodec`, `EditorEvents`, `WireText`,
  `EditorDrive`): canonical paths, printing commands, the text of the protocol, receiving drives with a
  handler that may refuse them, and what becomes of each command in between.
- **Commits** (`Order`, `DirChain`, `TreeEditor`, `Drives`, `Walks`, `FileDelta`, `CommitMeaning`,
  `CommitStream`, `CommitBuilder`, `Reopening`, `IntendedTree`, `Placement`): the two builders as compilers
  from changes to editor drives. `TreeEditor` is a reference editor that checks nesting and carries a drive
  out on a tree with properties, deletions and copies from earlier revisions; the drives of both builders
  turn the base tree into the intended one, or are refused.
- **Matching, pooling, recording, retrying** (`Glob`, `Pool`, `PoolHistory`, `Recorder`,
  `RecordedDrives`, `RetryLog`): the host-pattern matcher, the session pool as interleaved steps and what
  becomes of each session, the text delta recorder against the trace of its events, and the retrying log.

`Bytes` and `Arithmetic` hold what the others share.

Where a property fails of the code, the exact condition under which it holds is proved, and where the
condition does not name it, an input that breaks it: cuts of streams with over-long headers (`SplitInvariance.CutsAgree`, `LongHeader.CutsMatter`), full
texts with windows over 64 KiB (`RoundTrip.FulltextRoundTrip`), empty source views beyond a base file
(`FileRefinement.FileRefinesMemory`, `EmptyView.OnlyTheFileAccepts`), a `*` in the matched text (`Glob.DecidesGlob`), files put where other
puts of a streaming commit need a directory (`CommitStream.CarriedMeans`, `CommitStream.FileAsDirectoryIsSent`), directories
opened or added twice by the in-memory builder (`Reopening.OpensOnceIff`, `Reopening.SortedTasksMayReopen`,
`Placement.DriveAcceptedIff`, `Placement.ReopenedAddIsRefused`), deletions below deletions
(`Placement.UnharmedIff`, `Placement.NestedDeletesAreRefused`), a warm-up beside other users of the pool (`Pool.BoundedIff`, `Pool.WarmUpBesideReturn`),
and a handler's refusal that looks like a lost connection (`RetryLog.FinishedIffNotRetried`, `RetryLog.RefusalForgotten`).

src/textdelta/decode.rs:287-291 has an error for an integer that overflows, but the shift it checks never
fails. The model follows the code: over-long integers wrap.

`dafny verify dfyconfig.toml` checks the project.

## Model

| member | source | states |
|---|---|---|
| `Base128.TryDecodeUint` | src/textdelta/decode.rs:284-296 | the loop answers the base-128 value modulo 2^64 and its length on every terminated input, "incomplete" on every other, and never its overflow error |
| `Base128.EncodeUint` | src/svndiff.rs:91-104 | appends the base-128 form of the value, group by group |
| `Base128.UintRoundTrip` | src/svndiff.rs:91-104 | decoding an encoded 64-bit value followed by anything gives the value and its exact length |
| `Base128.UintPrefixIncomplete` | src/svndiff.rs:91-104 | no proper prefix of an encoding decodes |
| `Base128.UintLength` | src/svndiff.rs:91-104 | an encoding has at most ten bytes |
| `Base128.UintGroups` | src/svndiff.rs:91-104 | the encoding is the number in base 128, most significant group first and none to spare, the high bit set on every byte but the last |
| `StreamParser.TryParseWindowHeader` | src/textdelta/decode.rs:205-282 | the parser answers what the header means: five integers within the limits, refused, or incomplete |
| `StreamParser.HeaderExtends` | src/textdelta/decode.rs:205-282 | a complete or refused header stays so whatever arrives behind it |
| `StreamParser.HeaderNeedsOnly` | src/textdelta/decode.rs:205-282 | a complete header is already complete at its own last byte |
| `SourceViews.HeaderLimits` | src/textdelta/decode.rs:247-282 | five integers make a header exactly within the limits: 65536 bytes of view and of target, 65546 of data, 21 times 65536 of instructions, and a view that ends within 64 bits; which error is raised otherwise |
| `StreamParser.CursorBuf.Push` | src/textdelta/decode.rs:47-51 | adds to the unread bytes and nothing else |
| `StreamParser.CursorBuf.Consume` | src/textdelta/decode.rs:53-67 | drops that many unread bytes; clearing and compacting never change what is left |
| `StreamParser.SvndiffStream.Push` | src/textdelta/decode.rs:82-109 | the retained window and the buffer layout do not show: the stream of bytes received and unread changes as if the chunk were appended |
| `StreamParser.SvndiffStream.NextWindow` | src/textdelta/decode.rs:115-182 | takes the next complete window off the unread bytes, waits, or refuses, whichever the unread bytes alone call for; which views it lets pass is `SourceViews.ViewsRoundTrip` |
| `StreamParser.SvndiffStream.Finish` | src/textdelta/decode.rs:184-203 | the input may end with nothing received at all, or behind a complete header with nothing unread |
| `Instructions.ApplyWindowSource` | src/textdelta/decode.rs:397-510 | the interpreter loop computes the specification `WindowResult` |
| `Instructions.WindowMeaning` | src/textdelta/decode.rs:397-510 | it succeeds exactly when the instruction bytes disassemble into a valid program (every copy in range, target filled and new data used exactly), and then yields what the program means |
| `Instructions.CopyIsPeriodic` | src/textdelta/decode.rs:464-485 | a byte-by-byte target copy that overlaps itself is the periodic extension of the copied stretch |
| `Instructions.CopyOverlapping` | src/textdelta/decode.rs:480-484 | the copy loop appends the bytes one period back, one at a time |
| `DeltaForms.ReadsWhatIsFormed` | src/textdelta/decode.rs:397-463 | a byte string is taken for a list of operations if and only if it has the form of one: a selector with one of three actions, a length that is not zero in its low bits or behind it, and an offset for the two copies |
| `DeltaForms.SectionReads` | src/textdelta/decode.rs:299-374 | a section with a length is taken raw when it is as long as that, is unpacked otherwise, has to be used up and to come out as long as it says, and is refused over the limit |
| `Applier.TextDeltaApplierSync.Push` | src/textdelta/applier.rs:88-98 | one chunk writes exactly the windows it completes and stops at the first refusal |
| `Applier.ApplyTextdeltaSync` | src/textdelta/applier.rs:112-124 | the wrapper has the outcome of feeding all chunks and finishing |
| `Applier.ApplyWindow` | src/textdelta/decode.rs:376-395 | a window sees exactly its view of the base, or is refused when the view leaves it |
| `Applier.TextDeltaApplierFileSync.Push` | src/textdelta/applier.rs:145-156 | the file-backed applier writes what the same stream with file-backed source views calls for |
| `Applier.TextDeltaApplierFileSync.ReadSourceView` | src/textdelta/applier.rs:169-193 | seeking and reading gives the view of the file, an absent file counting as empty, and never looks at an empty view |
| `SplitInvariance.CutAgrees` | src/textdelta/decode.rs:81-203 | a stream refused whole, or with no window header over 51 bytes, has the same success and output under every cut |
| `SplitInvariance.SomeCutFails` | src/textdelta/decode.rs:122-128 | any other stream is accepted whole and refused in some cut |
| `SplitInvariance.CutsAgree` | src/textdelta/decode.rs:81-203 | all cuts of a stream agree with feeding it whole if and only if it is refused whole or no window header is longer than 51 bytes |
| `LongHeader.CutsMatter` | src/textdelta/decode.rs:122-128 | there is a stream, with one header padded to 53 bytes, that every base accepts whole and refuses in some cut |
| `CutOutcomes.EveryCutEndsAlike` | src/textdelta/decode.rs:81-203 | for a stream with no header over 51 bytes, the last complete one counted even when its window is cut short or refused, every cut ends alike: the same error or none, and the same bytes written before it |
| `FileRefinement.FileRefinesMemory` | src/textdelta/applier.rs:132-194 | when the in-memory applier succeeds the file-backed one does the same; when the file-backed one succeeds the in-memory one does if and only if no window has an empty view beyond the base |
| `EmptyView.OnlyTheFileAccepts` | src/textdelta/applier.rs:132-194 | with no base file, a stream of one empty window whose empty view lies beyond the base is accepted against the file and refused in memory |
| `SourceViews.OpsReadBack` | src/textdelta/decode.rs:397-510 | a list of operations written as selectors, lengths and offsets (copy from the view 0, copy from the target 1, new data 2) is read back as that list |
| `SourceViews.WindowStep` | src/textdelta/decode.rs:115-182 | a window at the front of the unread bytes is taken and yields what its program makes of its view exactly when the view lies in the base, slides on, and is allowed; it is refused otherwise |
| `SourceViews.ViewsRoundTrip` | src/textdelta/decode.rs:115-203 | a list of windows with source views, sent as a stream and cut in any way, over a base in memory or in a file: it ends well if and only if every view lies in the base, no view that is not empty starts or ends before the one ahead of it, views and targets are at most 64 KiB and every program is valid for its view; the output is what the programs make of their stretches of the base |
| `SourceViews.CopyDeltaIsIdentity` | src/textdelta/decode.rs:115-203 | the delta that copies its base view by view gives the base back |
| `SourceViews.NothingSentKeepsBase` | src/textdelta/applier.rs:100-124 | when nothing at all is sent, in any number of empty chunks, the output is the base |
| `Encoder.EncodeInsertionWindow` | src/svndiff.rs:50-79 | appends one window: header of five integers, instruction section, data section |
| `Encoder.CompressZlib` | src/svndiff.rs:106-129 | the zlib section is the size and then the raw data when short, uncompressed by choice, or not strictly longer than its compressed form |
| `Encoder.CompressLz4` | src/svndiff.rs:131-142 | the lz4 section is the size and then the shorter of data and compressed form |
| `Encoder.EncodeFulltextWithOptions` | src/svndiff.rs:27-48 | a full text becomes the stream header and one window for each piece, and one empty window for an empty text |
| `RoundTrip.SectionRoundTrip` | src/svndiff.rs:106-142 | decoding a section gives back its data within the limit: raw and compressed bodies cannot be confused |
| `RoundTrip.SectionForms` | src/svndiff.rs:106-142 | the bytes of a section in each version: raw; or a length and then the compressed data where that is shorter, with zlib only from 512 bytes and level 1 on |
| `RoundTrip.WindowRoundTrip` | src/svndiff.rs:50-79 | an encoded window of at most 64 KiB is taken whole and yields its data |
| `RoundTrip.StreamRoundTrip` | src/svndiff.rs:27-79 | feeding an encoded list of pieces, cut in any way, to an applier over any base succeeds if and only if no piece is over 64 KiB, and then writes the pieces |
| `RoundTrip.FulltextRoundTrip` | src/svndiff.rs:27-48 | for every version, level, base and cut the full text comes back, if and only if the window size is at most 64 KiB or the text is |
| `Decimal.EncodeDecimal` | src/rasvn/wire.rs:57-71 | the backwards-filled buffer holds the decimal numeral, for every 64-bit value |
| `Decimal.NumeralInjective` | src/rasvn/wire.rs:57-71 | different numbers have different numerals |
| `Decimal.NumeralLeads` | src/rasvn/wire.rs:57-71 | a numeral has no leading zero |
| `Items.EncodeItem` | src/rasvn/item.rs:106-125 | prints the item by the grammar of section 1 of the ra_svn protocol |
| `Connection.RaSvnConnection.Fill` | src/rasvn/conn/io.rs:367-408 | compacting and refilling keep the unread bytes (buffered and still to come); only the end of the input is an error |
| `Connection.RaSvnConnection.PeekByte` | src/rasvn/conn/io.rs:410-417 | answers the next unread byte and consumes nothing |
| `Connection.RaSvnConnection.ConsumeByte` | src/rasvn/conn/io.rs:419-424 | answers and consumes exactly the next unread byte |
| `Connection.RaSvnConnection.ReadAtom` | src/rasvn/conn/io.rs:319-349 | reads what the grammar calls an atom, with the same error and the same bytes left, however the input is split into reads |
| `Connection.RaSvnConnection.ReadList` | src/rasvn/conn/io.rs:277-317 | the explicit-stack loop agrees with the recursive-descent grammar, nesting capped at 256: same list, same error, same bytes left |
| `Connection.RaSvnConnection.ReadItem` | src/rasvn/conn/io.rs:268-275 | reading an item agrees with the grammar for every input and every split into transport reads |
| `ItemRoundTrip.ItemReadsBack` | src/rasvn/item.rs:106-125 | a readable item printed before anything is read back, and exactly what follows is left |
| `ItemRoundTrip.OnlyReadableItems` | src/rasvn/conn/io.rs:268-349 | no other item is ever read |
| `ItemRoundTrip.RoundTripExactly` | src/rasvn/item.rs:106-125 | an item survives printing and reading behind any input if and only if its words are words, its strings have 64-bit lengths and it nests at most 256 deep |
| `ItemRoundTrip.MessagesReadBack` | src/rasvn/wire.rs:44-55 | concatenated messages read back as the same list of items |
| `Spelling.ReadsWhatIsSpelled` | src/rasvn/conn/io.rs:268-365 | the reader answers an item and leaves `rest` if and only if the input starts with blanks and a text that spells the item and goes on with `rest`; what spells what is set out on its own: the five blanks, numbers with leading zeros, words, strings, lists up to 256 deep |
| `Prefixes.ItemStands` | src/rasvn/conn/io.rs:268-365 | what has been read, or refused for another reason than the end of the input, stays so whatever follows |
| `Prefixes.FrontIsTooShort` | src/rasvn/conn/io.rs:268-365 | every proper front part of a spelled item is met with the end of the input, and all of it is read |
| `Prefixes.TooDeep` | src/rasvn/conn/io.rs:277-317 | the 257th list inside each other is refused |
| `Prefixes.WordRefused` | src/rasvn/conn/io.rs:463-476 | a word that runs into a parenthesis or a colon is refused, and one that is not UTF-8 |
| `Prefixes.NumberRefused` | src/rasvn/conn/io.rs:319-349 | a number beyond 64 bits is refused, and one with no blank behind it |
| `Utf8.ValidAround` | src/rasvn/conn/io.rs:463-476 | a text cut at an ASCII byte is UTF-8 exactly when both parts are |
| `Utf8.ValidIffEncoded` | src/rasvn/conn/io.rs:463-476 | a byte string counts as UTF-8 if and only if it is the encoding of a list of Unicode scalar values, by section 3 of RFC 3629 |
| `CommandWords.VerbOfSpelling` | src/rasvn/edit/command.rs:16-232 | each command word names its command and no other |
| `CommandWords.SpellingPrintable` | src/rasvn/edit/command.rs:16-232 | each command word is a word to the item reader |
| `WireText.CommandOnWire` | src/rasvn/edit/command.rs:16-232 | the bytes printed for every command, word by word and parameter by parameter, as the protocol spells them |
| `WireText.MessageReads` | src/rasvn/edit/decode.rs:10-189 | a line of the protocol text is read as one item and told as the command, the target revision or the revision properties sent |
| `WireText.KeptLast` | src/rasvn/parse.rs:10-32 | of the revision properties sent just the names are told, each with the value sent last |
| `EditorCodec.EncodeEditorCommand` | src/rasvn/edit/command.rs:16-232 | prints the command with its path in canonical form as one item and a newline, or refuses the path |
| `EditorEvents.CommandReadsBack` | src/rasvn/edit/decode.rs:10-189 | a printed command is read as that item and parsed as the command with canonical path; its copy source is made canonical or refused, and close-edit and abort-edit are not events |
| `EditorEvents.ComesBackUnchanged` | src/rasvn/edit/decode.rs:10-189 | a command comes back as it was sent if and only if its path and copy source are canonical and it neither closes nor aborts the edit |
| `EditorDrive.DriveEditor` | src/rasvn/edit/drive.rs:13-147 | the loop hands events to the handler, replies, and gives a drive up as the specification `Outcome` says, for every input and every handler with any state; what that is on the bytes of each kind of drive is stated by the rows below |
| `EditorDrive.DrainUntilAbortOrSuccess` | src/rasvn/edit/drive.rs:149-166 | skipping stops behind the first item that says `abort-edit` or `success`, or at the end of the input; other read errors are reported |
| `EditorDrive.DriveReadsBack` | src/rasvn/edit/drive.rs:13-73 | the bytes of a drive, as the protocol spells it, reach a handler that takes them as the same messages in order up to `close-edit` or `abort-edit`; the drive is answered with success and what follows it is untouched |
| `EditorDrive.ReplayReadsBack` | src/rasvn/edit/drive.rs:29-41 | a replay ended by `finish-replay` reaches a handler that takes it as the same messages and the end of the replay, nothing is answered, and what follows is untouched; outside a replay no end is told and nothing is answered |
| `EditorDrive.FailureReadsBack` | src/rasvn/edit/drive.rs:24-26 | a `failure` ends the drive as that of the server: nothing more is told and nothing is answered |
| `EditorDrive.UnreadableDrains` | src/rasvn/edit/drive.rs:20-23 | an item that is not a command, or not one that is known, is not told; the drive is answered with the failure and read to its end |
| `EditorDrive.EndRefused` | src/rasvn/edit/drive.rs:137-147 | a refused closing message is answered with failure in place of success, and nothing is skipped |
| `EditorDrive.SuccessStops` | src/rasvn/edit/drive.rs:149-166 | skipping stops behind a `success` as well |
| `EditorDrive.RefusalDrains` | src/rasvn/edit/drive.rs:137-166 | a drive refused at one of its messages is answered with the failure and the input left right behind its `abort-edit`, however many items were read while the failure was written; behind a `close-edit` skipping goes on |
| `EditorEvents.ParamsReadBack` | src/rasvn/edit/decode.rs:10-269 | the parameter list of every command parses back into the command |
| `EditorEvents.RevisionForms` | src/rasvn/edit/decode.rs:206-211 | a revision may come bare or first in a tuple; only that of open-root may be missing |
| `EditorEvents.SourceOmitted` | src/rasvn/edit/decode.rs:213-222 | a copy source may be left out or empty |
| `EditorEvents.ValueOmitted` | src/rasvn/edit/decode.rs:253-258 | the value of a property may be left out or empty, which takes the property away |
| `EditorEvents.ChecksumBare` | src/rasvn/edit/decode.rs:235-251 | a checksum may come bare, and has to be UTF-8 |
| `EditorEvents.SourceRefused` | src/rasvn/edit/decode.rs:213-233 | a copy source is a pair of a path and a revision or an empty tuple, and nothing else |
| `EditorEvents.TooFewRefused` | src/rasvn/edit/decode.rs:10-189 | each command is refused below its least number of parameters |
| `Paths.CanonicalizeRelPath` | src/path.rs:5-64 | the borrowed fast path and the joined slow path both give the canonical form determined by the kept segments |
| `Paths.CanonicalSegments` | src/path.rs:34-64 | an accepted path has no empty, "." or ".." segment, no backslash and no NUL, and keeps the segments of the original |
| `Paths.SegmentsAround` | src/path.rs:34-50 | slashes and backslashes alike part a path; what lies between them counts unless it is empty or a single dot |
| `Paths.RefusedPaths` | src/path.rs:14-58 | a path is refused for having no segment that counts, unless that is allowed, and for a segment that is ".." or holds a NUL; for nothing else |
| `Paths.CanonicalIdempotent` | src/path.rs:5-72 | canonicalizing again changes nothing, by either entry point |
| `Paths.CleanIsCanonical` | src/path.rs:34-64 | every list of clean segments is its own canonical form |
| `Paths.CanonicalValid` | src/path.rs:5-64 | a canonical path of a UTF-8 path is UTF-8 |
| `Paths.AboveCanonical` | src/commit/stream.rs:211-229 | a directory above a canonical path is canonical |
| `DirChain.DirPrefixes` | src/commit/util.rs:67-84 | for any text the loop lists the chain of directories of the text without its empty parts, from the outermost down; for a relative path, its own chain |
| `DirChain.InChain` | src/commit/util.rs:60-84 | the chain above a path holds exactly the directories it lies under |
| `DirChain.TokensDistinct` | src/commit/util.rs:48-58 | tokens are `r`, `d` and a number, `f` and a number; directory tokens, file tokens and the root token never coincide |
| `DirChain.NextDirTokenFresh` | src/commit/util.rs:49-52 | the next directory token differs from every token issued |
| `DirChain.NextFileTokenFresh` | src/commit/util.rs:54-57 | the next file token differs from every token issued |
| `DirChain.UnderBetween` | src/commit/stream.rs:209-209 | between two paths under one directory, byte-wise order has only paths under it |
| `CommitStream.SortedIsSorted` | src/commit/stream.rs:209-209 | sorting gives the same files in strictly increasing path order |
| `Drives.CloseTo` | src/commit/stream.rs:259-267 | closing pops the stack from the top, in LIFO order, and acts on nothing else |
| `Drives.Align` | src/commit/stream.rs:248-304 | afterwards the open directories are exactly the chain of the target; shared ones stay open, and the rest are entered as planned under their true parents with fresh tokens, unless one has no plan |
| `Walks.WalkEnters` | src/commit/stream.rs:248-304 | a walk enters exactly the directories above the target that are not open, each once |
| `Walks.OnceIffContiguous` | src/commit/builder/build.rs:405-463 | walking over a list of targets enters a directory at most once if and only if the targets under it are neighbours |
| `CommitMeaning.EnteredIsNew` | src/commit/stream.rs:247-304 | a directory entered on the way to a sorted file lies above none of the files before it |
| `CommitMeaning.DirsStep` | src/commit/stream.rs:247-304 | entering the planned directories adds just the missing ones, and is refused exactly when an earlier file stands in the way or the drive was refused before |
| `CommitMeaning.FileStep` | src/commit/stream.rs:306-402 | writing the next file keeps the intended tree of the files so far, or is refused with them |
| `FileDelta.Read` | src/commit/stream.rs:342-350 | one read returns at most a buffer of the next run, and nothing only at the end |
| `FileDelta.SendContents` | src/commit/stream.rs:342-390 | a file is sent as one window a read, the first behind the stream header, in chunks of at most 64 KiB, and an empty file as one empty window |
| `FileDelta.SentIsStream` | src/commit/stream.rs:342-390 | the chunks together are the stream of the encoder for the windows read |
| `FileDelta.ChunksFull` | src/commit/builder/build.rs:544-549 | a delta is sent 64 KiB at a time, all of it, the last chunk being what is left |
| `CommitStream.SendFile` | src/commit/stream.rs:306-402 | one file sent turns the tree into the one with its contents, exactly when it is present as planned and every read fits a window |
| `CommitStream.CheckPaths` | src/commit/stream.rs:155-169 | succeeds if and only if every path is accepted and no two have the same canonical form |
| `CommitStream.CheckTargets` | src/commit/stream.rs:171-208 | succeeds if and only if every target is accepted, and collects exactly the directories above the files; what accepting means for the base is `CommitStream.AdmissibleIff` |
| `CommitStream.PlanDirs` | src/commit/stream.rs:211-229 | succeeds if and only if every directory needed is a directory or nothing, and plans to open or to add it accordingly |
| `CommitStream.CommitStreamBuilder.Commit` | src/commit/stream.rs:116-424 | the commit sends nothing or one drive. It sends one if and only if there are changes, the level is at most 9, the paths are accepted and distinct, each change finds in the base what it asks for (to add, nothing; to replace, a file; otherwise a file or nothing) and there is nothing but directories above them. The drive is well nested at the base revision, opens each directory needed exactly once, does to files just what is asked, and brings the base tree to the intended one or is refused. Any error has its reason in the changes and in the base, and is that of the first check that fails |
| `CommitStream.ReportedOnce` | src/commit/stream.rs:121-229 | what may be reported is one error at most: paths are checked before targets and targets before directories, each from the front |
| `CommitStream.AdmissibleIff` | src/commit/stream.rs:116-229 | the changes are admitted if and only if the base tree is as they need it, whatever the checks ask the server |
| `CommitStream.ReportedJustified` | src/commit/stream.rs:116-229 | `already exists` means that a change that only adds names a file of the base, `does not exist` that one that only replaces names nothing, and so on for each error; changes that agree with the base get no error about their target |
| `CommitStream.CarriedMeans` | src/commit/stream.rs:230-424 | a reference editor accepts such a drive if and only if no file stands where another needs a directory and every read fits a window, always so for windows up to 64 KiB, and the tree is then the base with each file set to its contents, properties kept, and missing ancestors added |
| `CommitStream.FileAsDirectoryIsSent` | src/commit/stream.rs:155-209 | the files `a` and `a/b` put where there is nothing are admissible, so a drive is sent, but no drive that carries them yields a tree |
| `CommitStream.ResultUnique` | src/commit/stream.rs:230-424 | that tree is determined by the base and the files |
| `CommitBuilder.BuildEditorCommands` | src/commit/builder/build.rs:405-594 | a command list exists if and only if nothing looked up lacks a plan; it is well nested, enters just the directories of the walk as planned, does what each task asks, in order, in the right directory, and leaves any base tree as the tasks one by one do |
| `Reopening.PlansSuffice` | src/commit/builder/build.rs:282-300 | plans for the collected directories are exactly what the drive needs |
| `Reopening.EnteredOnceIff` | src/commit/builder/build.rs:405-463 | over sorted tasks a directory is entered at most once if and only if a task for the directory itself is followed at once by everything below it |
| `Reopening.OpensOnceIff` | src/commit/builder/build.rs:280-280 | sorted tasks open no directory twice if and only if each directory with a task of its own is followed at once by everything below it |
| `Reopening.SortedTasksMayReopen` | src/commit/builder/build.rs:280-280 | directory `a`, file `a-b`, file `a/c`: sorted, and `a` is opened twice |
| `Reopening.FilesOnlyOpenOnce` | src/commit/builder/build.rs:405-463 | without directory tasks no directory is opened twice |
| `Reopening.DeltaCarriesText` | src/commit/builder/build.rs:532-553 | the delta sent for a put file yields its contents over any base, if and only if the window size or the contents fit 64 KiB |
| `IntendedTree.OriginalIs` | src/commit/builder/build.rs:598-604 | what the editor finds at a copy source is what the revision has at the path behind the URL of the repository and a slash, as the builder writes it |
| `IntendedTree.IntendedUnique` | src/commit/builder/build.rs:405-594 | the tree the tasks ask for is determined, path by path |
| `IntendedTree.LastChangeWins` | src/commit/builder/build.rs:480-565 | a property has the value its last change gives it, is gone if that takes it away, and is kept if none changes it |
| `Placement.PlacedStands` | src/commit/builder/build.rs:405-594 | tasks one by one bring the base to the tree they ask for, or are refused as soon as something is added twice, opened after it was deleted, or has a text that does not fit the windows |
| `Placement.AddedOnceIff` | src/commit/builder/build.rs:280-280 | over sorted tasks nothing is added twice if and only if each new directory with a task of its own is followed at once by everything below it, and where a file is added no task needs a new directory |
| `Placement.UnharmedIff` | src/commit/builder/build.rs:235-280 | over sorted tasks nothing is opened that has been deleted if and only if nothing is deleted below something deleted |
| `Placement.DriveAcceptedIff` | src/commit/builder/build.rs:235-604 | a reference editor that knows copies, deletions and properties accepts the drive for checked and sorted tasks if and only if nothing is asked for twice, nothing is deleted below something deleted, and every text fits the windows. The tree is then the intended one: nothing at or below a deleted path; each copied file, and each copied directory with everything below it, as the source is in the revision asked for; each file with its text; missing directories above the tasks added; properties changed as asked; all else as in the base |
| `Placement.ReopenedAddIsRefused` | src/commit/builder/build.rs:280-280 | new directory `a`, new files `a-b` and `a/c`: the directory just added is added again, and the drive is refused |
| `Placement.NestedDeletesAreRefused` | src/commit/builder/build.rs:235-280 | the deletions of `a` and of `a/c`: they pass the checks, the drive opens the directory it has just deleted and is refused |
| `Glob.WildcardMatch` | src/ssh/openssh.rs:172-211 | the backtracking loop ends and answers the specification scan |
| `Glob.NeverWrong` | src/ssh/openssh.rs:172-211 | it never accepts a text that the pattern, read as it stands with letters in either case, does not match |
| `Glob.DecidesGlob` | src/ssh/openssh.rs:172-211 | for a text, it decides declarative matching for every pattern if and only if the text has no "*" |
| `Glob.PlainPatternsDecided` | src/ssh/openssh.rs:172-211 | a pattern without "*" is decided on every text |
| `Glob.ScanComplete` | src/ssh/openssh.rs:172-211 | on a text without "*" a match is always found with the single backtrack point |
| `Pool.StepKeeps` | src/pool/session.rs:79-167 | every step of any task keeps the invariant while the free permits cover all that the warm-ups under way may still acquire: permits balance, sessions are distinct, the limit holds |
| `Pool.RunsStayGood` | src/pool/session.rs:79-283 | over every interleaving of checkouts, returns, failures, cancellations and any number of warm-ups, while the free permits cover the warm-ups: idle, opening and checked-out sessions never exceed the limit, none is in two places, no permit is lost; which session ends up where is stated by the rows of `PoolHistory` |
| `Pool.AloneIsCovered` | src/pool/session.rs:79-121 | a warm-up that has the pool to itself is always covered by the free permits |
| `Pool.QuietPool` | src/pool/session.rs:272-283 | once all tasks are over, however they interleaved, every permit is back and the idle sessions are distinct, and within the limit if each session a warm-up opened found room for one more |
| `Pool.CountsKept` | src/pool/session.rs:126-167 | a step keeps the limit because a checkout opens only after finding nothing idle, when every session has a permit |
| `Pool.RunsStayApart` | src/pool/session.rs:79-283 | over any run, warm-ups beside other tasks included, permits balance and no session is in two places |
| `Pool.BoundedIff` | src/pool/session.rs:79-283 | over any run, warm-ups beside other tasks included, the limit holds throughout if and only if every session a warm-up opens finds room for one more |
| `Pool.WarmUpBesideReturn` | src/pool/session.rs:79-121 | a warm-up beside a returning checkout leaves a pool of one with two sessions |
| `PoolHistory.SessionsAccounted` | src/pool/session.rs:79-230 | a step closes just the sessions it finds stale, that fail their check or that are in the hand of a call that gives up, opens at most one, and leaves every other where it can be found |
| `PoolHistory.FailedForGood` | src/pool/session.rs:143-155 | over any run, a session whose check has failed is never idle or in any hand again; the checkout keeps its permit and looks for another |
| `PoolHistory.StaleForGood` | src/pool/session.rs:137-141 | over any run, a session found idle for too long is never idle or in any hand again |
| `PoolHistory.HeldRightly` | src/pool/session.rs:126-167 | over any run, every session a checkout holds was opened by it, or taken without a check being asked for, or has passed the check it was taken for |
| `PoolHistory.HeldUntilReturned` | src/pool/session.rs:272-283 | a session held stays with its holder until it is given back, and only then the permit can go back |
| `PoolHistory.LastBackFirstOut` | src/pool/session.rs:211-222 | a session given back is the next one taken |
| `PoolHistory.WarmUpReaches` | src/pool/session.rs:79-121 | a warm-up opens sessions while the idle ones and its own are fewer than asked for, and stops exactly when they are as many |
| `PoolHistory.WarmUpHandsOver` | src/pool/session.rs:100-121 | all that a warm-up has opened becomes idle before its permits go back |
| `Recorder.TextDeltaRecorder.OnEvent` | src/textdelta/record.rs:61-165 | an event is accepted exactly when the trace allows it and then recorded, or refused for its own reason with nothing changed; the records are always those the trace describes, and each index in use names the last record of its token |
| `Recorder.TextDeltaRecorder.TakeCompleted` | src/textdelta/record.rs:54-57 | hands out the records since the last take or abort and starts over |
| `Recorder.RecordsEnded` | src/textdelta/record.rs:105-122 | an end adds one record: the path when the delta began, its base checksum, and just the chunks of that token since |
| `Recorder.RecordsClosed` | src/textdelta/record.rs:123-140 | a close with a checksum completes the one record awaited for its token and no other |
| `Recorder.ChecksumIsOwn` | src/textdelta/record.rs:123-140 | a checksum in a record comes from a close of the same use of the token |
| `Recorder.Interleaving` | src/textdelta/record.rs:61-165 | the records of one token are those of the trace with all other tokens struck out |
| `RecordedDrives.DriveRecorded` | src/textdelta/record.rs:61-165 | given the events of a drive whose files come one after the other, with others in between, the recorder accepts all of them, and has just the deltas sent, in order, each with the path its file was added or opened at, its base checksum, its chunks and the checksum of its close |
| `RecordedDrives.DriveEnds` | src/textdelta/record.rs:141-159 | such a drive may be closed or its replay finished and the records stay; an abort throws them away |
| `RecordedDrives.UnfinishedRefused` | src/textdelta/record.rs:147-159 | with a file open or a delta begun, a drive can neither be closed nor its replay finished |
| `RetryLog.RaSvnSession.LogEachRetrying` | src/client/history.rs:283-323 | the retry loop computes the specification of filtered attempts, for every handler with any state that may refuse any entry with any error; it gives up on a lost connection only when retrying is off or no retry is left, and the connection is kept unless the last error drops it |
| `RetryLog.HandlerSeesAll` | src/client/history.rs:283-323 | a willing handler sees everything sent in the attempts made, in order, without later repeats of a revision; one more attempt is made exactly when the last one lost the connection, retrying is on and a retry is left |
| `RetryLog.LogSeenOnce` | src/client/history.rs:283-323 | when attempts stream front parts of one log and one within the retries streams it whole, the handler sees exactly that log without later repeats |
| `RetryLog.DedupFacts` | src/client/history.rs:294-301 | each revision is handed on exactly once |
| `RetryLog.RefusalForgotten` | src/client/history.rs:289-316 | an entry refused with an error that looks like a lost connection is not offered again, and the log still ends well |
| `RetryLog.FinishedIffNotRetried` | src/client/history.rs:289-316 | for any handler, every log that ends well has had all its entries accepted, if and only if no retry is allowed or the handler never comes to refuse an entry as if the connection were lost |

## Left out

- Sockets, timeouts, scheduling, TLS, SSH, SASL and authentication: the transport is a list of reads, the server's answers are parameters.
- zlib and lz4: the compressors and decompressors are functions of which only `Faithful` is assumed, that each decompressor undoes its compressor; a compressor's own failure does not occur.
- 32-bit platforms: `usize` is taken to be 64 bits wide, so conversions from wire integers never fail, and byte slices are shorter than 2^63. Allocation always succeeds.
- Branches the types rule out, such as the overflow error of the integer decoder, stack underflow and a missing token at the top of the stack.
- Applier: the asynchronous twins of both appliers, which run the same steps over asynchronous writers; failing writers and failing reads of the base file.
- Connection: `data_available`, and the use of a broken connection after an error.
- Paths: the branches for Windows.
- EditorEvents: a server's failure is kept as its parameters.
- EditorDrive: a drive without a handler is one whose handler takes everything. How many items are read while a failure is being written is a parameter, and so is the handler's message; the bytes of replies are not printed. The asynchronous twin runs the same steps.
- EditorCodec: sending the bytes, batching and flushing.
- CommitStream: choosing the svndiff version from the server's capabilities; the version is a setting. Failing readers and a failing connection. The readers are lists of non-empty runs of bytes.
- CommitStream.CommitStreamBuilder.Commit: says nothing of the server's answer to the drive.
- CommitBuilder.BuildEditorCommands: takes tasks and plans as given; collecting the changes, the conflict checks and the questions put to the server before the drive are not part of it. What they settle is `IntendedTree.Placeable`.
- Placement.DriveAcceptedIff: the base is a tree with a root and nothing but directories above anything, as a repository has it.
- TreeEditor: the reference editor refuses checksums and what only a server sends, and knows copy sources only below the URL of the repository, which is all the builder sends.
- DirChain.TokenGen: counters are unbounded.
- Glob: the host blocks and the rest of the OpenSSH configuration reader.
- Pool: time; expiry and health checks are choices of the step. A poisoned lock, a session leaked without being dropped, and the concurrency within one step.
- Pool.RunsStayGood: requires the free permits to cover the warm-ups under way, because otherwise the limit does not always hold; `Pool.BoundedIff` says exactly when it does.
- Recorder: the handler interface around it.
- RetryLog: building the `log` request and parsing its entries; attempts are the entries a server would send and how the command ends.
- Export, blame, diff, reports, locks, properties and the parsers of responses: they would add members settled by one reading.
