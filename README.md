# tee in Dafny

A model of `tee/Tee.java`, a small Java `tee`. It copies standard input to standard
output and to every file named on the command line. The model has three modules, one
per piece of the program.

- `Parser` (parser.dfy) covers `Tee.parse` and the `Options` hierarchy.
  - `Options` is a datatype with `Help`, `Version`, `WrongOption(arg)` and
    `WriteOptions(append, files)`.
  - `Classify` says what a single argument does. `Outcome` says what a whole argument
    list yields.
  - `Parse` is the one-pass loop of the source, with its early returns. It is proved
    equal to `Outcome`.
  - Lemmas cover the properties of parsing: compositionality, monotonicity of the
    append flag, early stops, and the treatment of `--append`.
- `Copier` (copier.dfy) covers the fan-out copier: `getOutputs`, `writeToOutputs` and the
  teardown loop of `main`.
  - Its state is the class `Tee`. The class holds every stream opened (`streams`),
    the live list of outputs (`outputs`, the `LinkedList` of `Tee.Output`) and the
    diagnostic stream (`log`).
  - A stream is the record of what was done to it: its target, the bytes written
    through it and the number of times it was closed. An `Output` names a stream by
    its handle and carries the label that diagnostics use.
  - Standard input is a sequence of chunks that ends in end of input or in a read
    error.
  - An `Environment` says which calls into the platform fail: opening the i-th file,
    writing chunk k to stream h, closing stream h.
  - The loops are methods proved against recursive specification functions.
    `WriteChunk` is the inner loop with in-place removal (`iterator.remove()`).
    `CopyChunks` is the outer read loop. `GetOutputs` and `CloseAll` are the open and
    teardown loops.
  - Lemmas state what the copy promises:
    - the live list only shrinks, and the outputs removed from it are reported, one
      diagnostic per output, in the order of removal;
    - an output that survives holds the whole input;
    - an output that is dropped holds exactly the chunks before its failed write and
      is never written again;
    - every stream is closed exactly once.
- `TeeMain` (tee.dfy) covers `Tee.main`.
  - `Execute` parses the arguments. It then answers `--help` or `--version`, rejects
    a wrong option, or opens, copies and closes.
  - It is proved equal to `Expected`, the run as a function of the arguments, the
    input and the environment.
  - End-to-end lemmas relate a run to its input and its failures.

The usage text at `tee/Tee.java:18` advertises `--append` as the long form of `-a`, but
the code rejects it. The code's `case "--append"` only breaks out of the `switch`, and
control falls through to the short-flag loop. That loop reads the second `-` as an unknown
flag and returns `WrongOption("--")`. The model follows the code: `--append` yields
`WrongOption("--")`, proved as `Parser.LongAppendRejected`. Only a cluster such as `-a`
or `-aa` sets the flag.

## Model

| member | source | states |
|---|---|---|
| `Parser.Classify` | tee/Tee.java:118-153 | an argument is skipped iff it is empty; it is a file iff it is non-empty and does not start with `-`; it sets the append flag iff it is `-` followed by one or more `a` |
| `Parser.FirstOtherFlag` | tee/Tee.java:144-152 | the scan of a short cluster stops at the first character that is not `a`, and every character before it is `a` |
| `Parser.FirstFinal` | tee/Tee.java:118-154 | parsing stops at the first argument that forces a return, and no argument before it does |
| `Parser.Parse` | tee/Tee.java:115-156 | the loop with its early returns yields exactly `Outcome(args)`: the verdict of the first argument that stops parsing, otherwise `WriteOptions` with the append flag and the files in order |
| `Parser.StopAt` | tee/Tee.java:127-152 | an early return at argument n is the result of the whole parse when no earlier argument returned |
| `Parser.PrefixStep` | tee/Tee.java:118-125 | one more argument adds itself to the files when it is a path, and sets the flag when it is an `-a...` cluster |
| `Parser.LongOptionVerdict` | tee/Tee.java:127-152 | `--help` gives Help, `--version` gives Version, `--append` gives `WrongOption("--")`, and any other `--xxx` gives `WrongOption` of the whole argument |
| `Parser.BareDashVerdict` | tee/Tee.java:140-142 | a bare `-` is rejected as `WrongOption("-")` |
| `Parser.ShortClusterVerdict` | tee/Tee.java:144-152 | in a cluster, the first character that is not `a` is reported alone, as `-c` |
| `Parser.PathsOfConcat` | tee/Tee.java:118-125 | the files of a concatenated argument list are the files of each part, in order |
| `Parser.PathsOfCount` | tee/Tee.java:118-125 | each file argument is kept as many times as it occurs, duplicates included, and nothing else is kept |
| `Parser.FirstFinalConcat` | tee/Tee.java:118-154 | parsing `a + b` stops in `a` if parsing `a` stops, and otherwise where parsing `b` stops |
| `Parser.AppendRequestedConcat` | tee/Tee.java:144-149 | the flag is set by `a + b` iff it is set by `a` or by `b` |
| `Parser.OutcomeConcat` | tee/Tee.java:115-156 | parsing is compositional: a stop in the first part wins; otherwise the flags are or-ed and the file lists concatenated |
| `Parser.StopIsFinal` | tee/Tee.java:127-142 | once parsing has returned early, no later argument changes the result |
| `Parser.HelpAndVersionIgnoreRest` | tee/Tee.java:127-132 | `--help` and `--version` give Help and Version whatever follows them |
| `Parser.LongAppendRejected` | tee/Tee.java:133-151 | `--append`, whatever follows it, gives `WrongOption("--")` and never sets the flag |
| `Parser.AppendIsMonotone` | tee/Tee.java:116-155 | more arguments can set the append flag but never clear it, and only add files at the end |
| `Parser.AppendExample` | tee/Tee.java:144-155 | `-a out.txt` yields `WriteOptions(true, ["out.txt"])` |
| `Parser.BlankAndRepeatedExample` | tee/Tee.java:118-125 | `"" x x` yields `WriteOptions(false, ["x", "x"])`: empty arguments are skipped and duplicates kept |
| `Parser.RejectedExamples` | tee/Tee.java:136-152 | `--bogus` is rejected whole; `-z` and `-aaz f` are rejected as `-z` |
| `Copier.ChunksDelivered` | tee/Tee.java:89-104 | a stream receives the chunks before its first failed write, all of them succeeded, and the next write failed if it stopped early |
| `Copier.WriteChunk` | tee/Tee.java:90-104 | one pass of the inner loop keeps, in order, exactly the outputs whose write succeeded. It removes the others in place. It appends the chunk to each successful stream and closes each failed one once. It reports the failures in list order, each noting whether the close failed too |
| `Copier.CopyChunks` | tee/Tee.java:85-110 | the read loop writes every chunk to the outputs live when it is read and keeps reading to the end even with none left. It reports a read error once. It leaves the live list consistent: open streams, each named once, in opening order |
| `Copier.Tee.GetOutputs` | tee/Tee.java:67-79 | the live list is `stdout` with handle 0, then each file whose open succeeded, in argument order, with handles 1, 2, ...; each failed open is reported and the rest are still tried |
| `Copier.Tee.WriteToOutputs` | tee/Tee.java:85-110 | the copy on the class state: the live list becomes the survivors, and each stream gets the chunks before its first failed write. It keeps the live list consistent |
| `Copier.Tee.CloseAll` | tee/Tee.java:48-59 | the teardown closes each live output once, in list order, reports each failed close and goes on with the rest |
| `Copier.OpenStep` | tee/Tee.java:70-78 | trying one more file either adds it, with the next handle, or reports it |
| `Copier.InitialValid` | tee/Tee.java:67-79 | the outputs `getOutputs` builds name open streams, each once, in opening order, and their handles are exactly the streams opened |
| `Copier.ChunkStep` | tee/Tee.java:91-104 | one iteration of the inner loop: the cursor is at the next output of the list the pass started from. Writing to it, then keeping or removing it, gives the state after that output |
| `Copier.WriteFailuresStep` | tee/Tee.java:93-103 | one more output adds a diagnostic exactly when its write fails |
| `Copier.IterationStep` | tee/Tee.java:90-101 | keeping the output at the cursor, or removing it in place with `iterator.remove()`, leaves the kept outputs followed by those not yet visited |
| `Copier.OfferPrefixAt` | tee/Tee.java:91-104 | offering a chunk to the first n outputs changes exactly their streams, each by one write attempt |
| `Copier.OfferAt` | tee/Tee.java:91-104 | offering a chunk to the live list changes exactly the live streams, each by one write attempt |
| `Copier.CloseEachPrefixAt` | tee/Tee.java:52-58 | closing the first n outputs closes exactly their streams, once each |
| `Copier.CloseEachAt` | tee/Tee.java:52-58 | the teardown closes exactly the live streams, once each |
| `Copier.KeepMembers` | tee/Tee.java:91-104 | an output is kept after a chunk iff it was live and its write succeeded |
| `Copier.KeepAscending` | tee/Tee.java:90-104 | removal in place keeps the live list in opening order |
| `Copier.KeepValid` | tee/Tee.java:90-104 | after one chunk the kept outputs still name open streams, each once, in order |
| `Copier.SurvivorsMembers` | tee/Tee.java:89-106 | an output is live after k chunks iff it was opened and all k of its writes succeeded |
| `Copier.SurvivorsNone` | tee/Tee.java:88-90 | before any chunk is read every output is live |
| `Copier.CopiedNone` | tee/Tee.java:88-90 | before any chunk is read no stream has changed |
| `Copier.KeepSurvivors` | tee/Tee.java:89-106 | writing chunk k to the outputs live after k chunks leaves exactly those live after k + 1: the live list only shrinks, and only by the outputs whose write failed |
| `Copier.CopyStep` | tee/Tee.java:89-106 | one pass of the read loop takes the live list and the diagnostics from k chunks to k + 1 |
| `Copier.SurvivorsInRange` | tee/Tee.java:89-106 | the outputs live after k chunks are among those opened |
| `Copier.OfferEachCopies` | tee/Tee.java:89-106 | writing chunk by chunk gives each stream opened the chunks before its first failed write, and closes it once if that write happened. The other streams are untouched |
| `Copier.SurvivorsConsistent` | tee/Tee.java:89-106 | the live list names open streams, each once, in opening order, after any number of chunks |
| `Copier.SurvivorsAscending` | tee/Tee.java:90-104 | the live list stays in opening order throughout the copy |
| `Copier.CopiedStep` | tee/Tee.java:89-106 | offering chunk k to the outputs live after k chunks gives the streams after k + 1 chunks |
| `Copier.CopiedStepAt` | tee/Tee.java:89-106 | the same as `CopiedStep`, for one stream |
| `Copier.OpenPartition` | tee/Tee.java:70-78 | the opened paths and the open diagnostics together number the files given, one entry per position |
| `Copier.OpenedMembers` | tee/Tee.java:70-78 | a path is opened iff it is given at a position whose open succeeds |
| `Copier.OpenFailedMembers` | tee/Tee.java:70-78 | a path is reported as failing to open iff it is given at a position whose open fails; a path given twice can be both opened and reported |
| `Copier.AllOpensSucceed` | tee/Tee.java:70-78 | when no open fails, every file is opened in the order given and nothing is reported |
| `Copier.KeepCount` | tee/Tee.java:91-104 | for one chunk, the kept outputs and the write diagnostics together number the outputs written to; which output goes where is stated by `Copier.KeepDropped` and `Copier.WriteFailuresReportDropped` |
| `Copier.CopyAccounts` | tee/Tee.java:89-106 | the live list only shrinks, by as many outputs as there are write diagnostics: the live outputs and the write diagnostics together number the outputs opened |
| `Copier.KeepDropped` | tee/Tee.java:91-104 | writing one chunk splits the live outputs into those kept and those dropped, each output on exactly one side |
| `Copier.WriteFailuresReportDropped` | tee/Tee.java:91-104 | writing one chunk reports exactly the outputs dropped, one diagnostic each, in list order, each with its label and whether its close failed |
| `Copier.LiveOrLost` | tee/Tee.java:89-106 | after k chunks every output opened is either still live or lost, and exactly once (as multisets) |
| `Copier.CopyFailuresReportLost` | tee/Tee.java:89-106 | the write diagnostics of the copy are those of the lost outputs, one each, in the order they were removed |
| `Copier.LostReported` | tee/Tee.java:93-103 | an output opened and no longer live has its own write failure among the diagnostics |
| `Copier.SurvivorsHoldInput` | tee/Tee.java:89-106 | an output live at the end holds every chunk read, in order, and is still open |
| `Copier.RemovedKeepsPrefix` | tee/Tee.java:93-103 | an output dropped during the copy failed its write of some chunk d. Its stream holds exactly the chunks before d, was closed once, and is never written again |
| `Copier.ClosedOnceAfterTeardown` | tee/Tee.java:48-59 | over copy and teardown, each stream opened gains the chunks before its first failed write and is closed exactly once: at the failure (line 97) or in the teardown |
| `TeeMain.Execute` | tee/Tee.java:26-62 | `main` dispatches on the parse: help, version, a rejected option, or open, copy and close. The result is the run `Expected` describes |
| `TeeMain.EveryStreamClosedOnce` | tee/Tee.java:48-59 | after a copying run every stream opened, standard output included, was closed exactly once |
| `TeeMain.StdoutMirrorsInput` | tee/Tee.java:85-110 | when no write to standard output fails, it holds the whole input whatever happens to the files, and is closed once |
| `TeeMain.ReadErrorReported` | tee/Tee.java:107-109 | a read error appears in the diagnostics exactly once if the input ends in one, and never otherwise |
| `TeeMain.NoFailuresCopyEverywhere` | tee/Tee.java:46-59 | with no failure anywhere, every file is opened and every stream holds the whole input and was closed once. The only possible diagnostic is a read error; with zero files only standard output exists |
| `TeeMain.StreamAtEnd` | tee/Tee.java:46-59 | stream h of a run is standard output for h = 0, otherwise the h-th opened file in argument order. It holds exactly the chunks before its first failed write and was closed once |
| `TeeMain.OpenFailuresKind` | tee/Tee.java:75-77 | the open phase reports only failed opens |
| `TeeMain.WriteFailuresKind` | tee/Tee.java:93-103 | writing a chunk reports only failed writes |
| `TeeMain.CopyFailuresKind` | tee/Tee.java:89-106 | the copy loop reports only failed writes |
| `TeeMain.CloseFailuresKind` | tee/Tee.java:53-57 | the teardown reports only failed closes |
| `TeeMain.NoCopyFailures` | tee/Tee.java:93-103 | without failed writes the copy reports nothing |
| `TeeMain.KeepAll` | tee/Tee.java:91-104 | without failed writes no output is removed |
| `TeeMain.NoCloseFailures` | tee/Tee.java:53-57 | without failed closes the teardown reports nothing |

## Left out

- Real I/O is not modelled: `System.in.read`, `System.out`, `Files.newOutputStream` and
  the file system. A stream records the bytes written through it, its target and its
  open mode. What a file held before it was opened, and hence the visible difference
  between append and truncate, is a platform effect and is not modelled.
- Which calls fail is a parameter (`Environment`), not something the model decides.
  - Open failures are per file position.
  - Write failures are per chunk index and stream handle.
  - Close failures are per stream handle. This is enough because each stream is closed
    exactly once.
  - A failed write writes nothing; partial writes are not modelled.
  - The delayed failures of `BufferedOutputStream`, which can surface only at a later
    write or at close, are folded into the environment's answers.
  - Writes to standard output are allowed to fail, although `System.out` is a
    `PrintStream` that swallows its errors. `TeeMain.StdoutMirrorsInput` covers the
    case where they never fail.
  - Closing standard output is allowed to fail too, although `PrintStream.close`
    swallows its errors as well; `TeeMain.NoFailuresCopyEverywhere` covers the case
    where no close fails.
  - `written` is the bytes that `write` accepted. A `BufferedOutputStream` whose final
    flush fails at close may lose its last bytes, so `Copier.SurvivorsHoldInput` says
    what was handed to the stream, not what reached the file.
- The chunk size of 4096 bytes and blocking reads are not modelled. Input is any
  sequence of chunks.
- Diagnostics are modelled without their text. Each diagnostic keeps its kind and the
  label of the output or path. A write failure records whether the close that follows
  it failed too; in the source that error is attached to the write error through
  `addSuppressed`.
- The text of the help and version messages is left out, and so is printing it. A
  rejected option is the `Rejected` result; its two message lines and
  `System.exit(1)` are left out.
- Arguments are sequences of Unicode characters, not Java's UTF-16 code units. A
  short-flag cluster whose first unknown character lies outside the Basic Multilingual
  Plane is reported with that whole character (`-😀`), where Java reports only its
  high surrogate.
- `Paths.get` is left out. It can normalise a path or throw `InvalidPathException`;
  file names are kept as the strings given.
- Unchecked exceptions escaping `writeToOutputs` are left out. The copy loop catches
  every `IOException` itself, and the teardown in the `finally` block is modelled as
  always running after the copy.
