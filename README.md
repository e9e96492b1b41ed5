# Server-Speed-Test library, modelled in Dafny

This project models `speedtest_library.rb`, the library behind the
Server-Speed-Test benchmark. For each server, the library mounts the
server's AFP share under `/Volumes/<volume>`. It then copies a test file of
random bytes to the share, makes 30 random in-place edits to the copy, and
copies it back. Each of these three phases has its own `connect` and
`disconnect`. The library appends one result row per server.

Everything the library sees of the operating system goes through shell
commands and library calls, so the model treats the environment as oracles.
The class `Environment.World` holds them:

- `mountTable(path, n)` is what `File::exists?` and `df -m` report for
  `path` at the n-th probe. The values `filesystem(path)` returns over time
  are therefore a sequence (`World.Observations`).
- `rng(n)` is the n-th number the random generator yields.
- `pid` is the process id `$$`.
- `files` maps each path to its bytes.
- `log` records every action the library takes on the world, in order:
  probes, shell commands, copies, opens, seeks, reads, writes, closes and
  unlinks.

The modules follow the library's parts:

| module | file | models |
|---|---|---|
| `Errors` | errors.dfy | every `raise` of the library, and the exceptions its library calls raise |
| `FilesystemProbe` | probe.dfy | `filesystem(path)` and the `/^afp_/`, `/^\/dev\//` tests |
| `Environment` | environment.dfy | the world: files, file handles, the generator, shell commands |
| `Unmount` | umount.dfy | `umount(path)`, the bounded retry loop |
| `Servers` | server.dfy | `Server`: `initialize`, `connect`, `disconnect` |
| `TestFiles` | testfile.dfy | `TestFile#initialize` |
| `Tests` | test.dfy | `Test`: `initialize`, `run` and its three measurements |

Pure decisions are functions: parameter validation, pre-mount
classification, the destination file name and the `umount` counting. The
loops and field updates are methods:

- the `umount` loop;
- `Server#connect` setting `afp_destfile`;
- the 30-edit loop through one file handle;
- `Test#run` appending to `test_results`.

Each of these is proved against a specification function:

- `Unmount.Attempts` and `Unmount.Fails` for the `umount` loop;
- `Servers.PreMountCheck` and `Servers.DestFile` for `connect`;
- `Tests.DrawnEdits` and `Tests.ApplyEdits` for the edit loop;
- `Tests.RoundLog` and `Tests.Test.RoundResults` for `run`.

## Model

| member | source | states |
|---|---|---|
| FilesystemProbe.FilesystemOf | speedtest_library.rb:1-4 | `filesystem(path)` is nil exactly when the path does not exist; otherwise it is the stripped first fields of `df`'s output after its header, which hold no space and no surrounding whitespace |
| FilesystemProbe.DeviceOfTypicalReport | speedtest_library.rb:1-4 | for the usual `df` output (a header line, then a line whose first field is the device), `filesystem` returns exactly that device |
| FilesystemProbe.Strip | speedtest_library.rb:3 | `.strip` removes leading, then trailing whitespace; the contracts of `StripLeading` and `StripTrailing` state what is left |
| FilesystemProbe.AfterFirstLine | speedtest_library.rb:3 | `tail --lines=+2` keeps what follows the first line break, and nothing when there is none; `FilesystemOf` and `DeviceOfTypicalReport` state what `filesystem` makes of it |
| FilesystemProbe.FirstField | speedtest_library.rb:3 | `cut -f1 -d' '` on one line keeps the text before the first space, which holds no space |
| FilesystemProbe.MatchesAtLineStart | speedtest_library.rb:11 | Ruby's `=~ /^p/`: the string starts with p, or p follows one of its line breaks; `MatchesAtLineStartIff` proves this is "some line starts with p" |
| FilesystemProbe.IsAfp | speedtest_library.rb:46 | `filesystem =~ /^afp_/`: there is a reading and one of its lines starts with `afp_`; a nil reading never matches |
| FilesystemProbe.IsDevice | speedtest_library.rb:49 | `filesystem =~ /^\/dev\//`: there is a reading and one of its lines starts with `/dev/`; a nil reading never matches |
| FilesystemProbe.MatchesAtLineStartIff | speedtest_library.rb:11 | the recursive matcher holds exactly when some line of the string starts with the pattern, which is the meaning of Ruby's `^` |
| FilesystemProbe.MatchesAfterLineBreakIff | speedtest_library.rb:11 | the pattern occurs right after a line break of the string exactly when the helper matcher says so |
| FilesystemProbe.SingleLineMatchIsPrefix | speedtest_library.rb:46-49 | on a string without line breaks, `=~ /^p/` is a plain prefix test |
| FilesystemProbe.StripLeading | speedtest_library.rb:3 | the result is a suffix of the input that does not start with whitespace, and only whitespace was removed |
| FilesystemProbe.StripTrailing | speedtest_library.rb:3 | the result is a prefix of the input that does not end with whitespace, and only whitespace was removed |
| FilesystemProbe.CutFirstFields | speedtest_library.rb:3 | `cut -f1 -d' '` leaves no space in its output |
| Unmount.AttemptsFrom | speedtest_library.rb:9-19 | from counter `c`, the loop issues commands until the first reading that differs from the initial one, and at most up to the bound of 5 |
| Unmount.Attempts | speedtest_library.rb:7-19 | at most 5 `umount` commands are issued, and none exactly when the initial reading is not AFP |
| Unmount.Fails | speedtest_library.rb:20 | `umount` raises when the path is AFP-backed and the reading after the last attempt still equals the initial one; `FailsIffNeverChanged` and `SucceedsOnFirstChange` characterise it, and `Umount` raises exactly when it holds |
| Unmount.UmountLog | speedtest_library.rb:7-16 | the actions of `umount` with n commands; `UmountLogShape` states their shape and `Umount` produces them |
| Unmount.UmountLogShape | speedtest_library.rb:7-16 | the actions of n attempts are the initial reading, then n pairs of one `umount` command and one reading |
| Unmount.AttemptsFromIsFirstChange | speedtest_library.rb:16-19 | the number of attempts is the first attempt after which the reading changed, or 5 if it never changed |
| Unmount.FailsIffNeverChanged | speedtest_library.rb:8-20 | `umount` raises "Unable to unmount" exactly when the path is AFP-backed and all five readings after the commands equal the initial one |
| Unmount.SucceedsOnFirstChange | speedtest_library.rb:11-20 | `umount` returns normally after the first attempt whose reading differs, and `c < 5` holds then |
| Unmount.Umount | speedtest_library.rb:6-21 | the loop takes `1 + n` readings and issues `n = Attempts` commands, n ≤ 5, in the order `UmountLog` gives; it raises exactly when `Fails` holds, with "Unable to unmount" |
| Servers.ConfigFrom | speedtest_library.rb:28-37 | `Server.new` fails exactly when the host is missing, or when the protocol is `:afp` and the volume is missing, each with its own error; `protocol` defaults to `:ssh`; the volume is kept exactly for AFP |
| Servers.MountPoint | speedtest_library.rb:43 | the mount point `/Volumes/<volume>`, used by `connect` and `disconnect` alike |
| Servers.Decimal | speedtest_library.rb:64 | `#{$$}` prints the process id in decimal; `DecimalDigits` and `DecimalRoundTrip` state what it prints |
| Servers.DestFile | speedtest_library.rb:64 | the destination file `<mount point>/speedtest_temporary_destfile.<pid>`; `DestFileShape` and `DestFileSeparatesProcesses` state where it lies and that processes do not share it |
| Servers.ConnectLog | speedtest_library.rb:44-62 | a `connect` that mounts is a reading, the Finder mount command, and a second reading; `Server.Connect` logs exactly this |
| Servers.DecimalDigits | speedtest_library.rb:64 | `$$` prints as a nonempty string of digits with no leading zero |
| Servers.DecimalRoundTrip | speedtest_library.rb:64 | reading the printed process id back gives the process id |
| Servers.DestFileShape | speedtest_library.rb:64 | the destination file lies directly inside the mount point: the mount point, a slash, and a name without slashes |
| Servers.DestFileSeparatesProcesses | speedtest_library.rb:64 | two processes benchmarking the same volume use different destination files |
| Servers.PreMountCheck | speedtest_library.rb:44-54 | mounting proceeds exactly when the mount point does not exist; otherwise an AFP reading gives "mounted already", a `/dev/` reading gives "exists, but is not mounted", and any other reading, the empty one included, gives "Unhandled pattern" |
| Servers.AfpShareIsMountedAlready | speedtest_library.rb:44-48 | a one-line reading starting with `afp_` is always refused as mounted already |
| Servers.Server.constructor | speedtest_library.rb:28-37 | a new server holds the validated configuration and no destination file |
| Servers.Server.Connect | speedtest_library.rb:39-68 | a non-AFP server raises "invalid protocol" and touches nothing. An AFP server refused by `PreMountCheck` raises before any mount command. Otherwise the server probes, mounts and probes again: a reading unchanged by the mount raises "Unable to mount" and leaves `afp_destfile` unchanged; a changed one sets `afp_destfile` to `DestFile(volume, pid)` |
| Servers.Server.Disconnect | speedtest_library.rb:70-77 | a non-AFP server does nothing; an AFP server does exactly what `umount` of its mount point does |
| Servers.NewServer | speedtest_library.rb:28-37 | `Server.new` fails exactly when `ConfigFrom` does, with its error; otherwise a fresh server with that configuration and no destination file |
| TestFiles.CheckTestFileParams | speedtest_library.rb:86-87 | `TestFile.new` passes its first checks exactly when `bytes` and `basename` are given; `bytes` is checked first |
| TestFiles.TestFile.constructor | speedtest_library.rb:89-93 | the object records size, type, basename and the temporary path |
| TestFiles.NewTestFile | speedtest_library.rb:85-102 | missing parameters raise before the temporary file exists. A type other than `:random` (the default), or a negative size, raises after creating an empty file. Otherwise the file holds exactly `bytes` bytes, one per draw of `rand(256)`, written in one write |
| Environment.Overwrite | speedtest_library.rb:165 | a write replaces the bytes at its offset, extends the file past its end, and leaves every other byte as it was |
| Environment.DrawnBytes | speedtest_library.rb:97 | `Array.new(n) { rand(256) }.pack('c*')` has n bytes, byte i being draw i modulo 256 |
| Environment.RandomBytes | speedtest_library.rb:97 | the loop produces exactly `DrawnBytes` and uses n draws |
| Environment.World.Filesystem | speedtest_library.rb:1-4 | each call returns the next reading of the path's sequence and is logged as a probe |
| Environment.World.Run | speedtest_library.rb:13-14 | a shell command is logged and changes nothing else |
| Environment.World.CopyFile | speedtest_library.rb:139 | `FileUtils.copy` copies the source's bytes to the destination. It raises "no such file" when the source is missing, and "same file" when source and destination are one file; either way no file changes |
| Environment.World.CreateTemporary | speedtest_library.rb:93 | `Tempfile.new` creates an empty file |
| Environment.World.OpenFile | speedtest_library.rb:159 | `File.new(path, "r+")` gives a fresh handle at offset 0 on the file's bytes, or raises "no such file" |
| Environment.World.WriteFile | speedtest_library.rb:97 | a write through the test file overwrites its bytes at the offset, and is taken to reach the file at once (see "Left out") |
| Environment.World.SafeUnlink | speedtest_library.rb:192 | `FileUtils.safe_unlink` removes the file, whether or not it existed |
| Environment.World.RandomRand | speedtest_library.rb:162-164 | `Random.rand(max)` yields the next draw modulo `max`, within `0..max-1`, and raises with no draw when `max` is not positive |
| Environment.World.Rand256 | speedtest_library.rb:165 | `rand(256)` yields the next draw modulo 256 |
| Environment.FileHandle.Seek | speedtest_library.rb:162 | `seek` moves the position |
| Environment.FileHandle.Read | speedtest_library.rb:163 | `read(n)` returns up to n bytes from the position, fewer at the end (none where Ruby returns nil), and moves past them |
| Environment.FileHandle.Write | speedtest_library.rb:165 | `write` overwrites from the position and moves past the bytes written |
| Environment.FileHandle.Close | speedtest_library.rb:168 | `close` makes the file hold what was written through the handle |
| Tests.DrawnEdit | speedtest_library.rb:162-165 | each edit reads at an offset in `[0, bytes-1000)`, writes at an offset in `[0, bytes)`, and writes exactly 1000 bytes |
| Tests.DrawnEdits | speedtest_library.rb:161-166 | the batch holds exactly n edits, each within those bounds |
| Tests.DrawnEditAt | speedtest_library.rb:161-166 | edit k is made from the 1002 draws that follow the first k edits |
| Tests.ApplyEdits | speedtest_library.rb:161-166 | the file after the edits' writes, in order; `EditLoop` is proved to leave exactly this, and `EditsKeepSize` bounds its size |
| Tests.EditsKeepSize | speedtest_library.rb:164-165 | for a file of `bytes` to `bytes+999` bytes (the test file as uploaded to any server, the first or a later one), the edits never shrink it and leave it shorter than `bytes+1000`; its size stays when every write ends within `bytes` |
| Tests.EditOpsLogWrites | speedtest_library.rb:161-166 | the edits' actions come four per edit, in order: seek, read 1000, seek, write |
| Tests.RoundFiles | speedtest_library.rb:117-126 | after upload, edits and download between two distinct paths (the only case where both copies go through), the test file holds the edited upload and the destination file is gone |
| Tests.RoundLog | speedtest_library.rb:116-126 | one round's actions: the upload, editing and download phases, each between a `connect` and a `disconnect`; `RunServer` logs exactly this and `Run` logs the rounds one after the other |
| Tests.RoundLoggedSnoc | speedtest_library.rb:116-127 | a round that went through appends its own actions as the next segment of the run's log |
| Tests.EditOp | speedtest_library.rb:161-166 | one turn draws an edit in bounds, logs seek, read, seek and write, and overwrites 1000 bytes at the write offset; a file of at most 1000 bytes raises at the first draw, with nothing done |
| Tests.EditLoop | speedtest_library.rb:161-166 | the loop makes exactly 30 edits, the next ones the generator yields, and applies them in order through the handle; a file of at most 1000 bytes raises at the first draw |
| Tests.EditFile | speedtest_library.rb:158-168 | the file is opened (raising if missing), edited 30 times, and closed; with at most 1000 bytes the first draw raises and the handle stays open |
| Tests.CheckTestParams | speedtest_library.rb:107-108 | `Test.new` passes exactly when servers and transfer file are given; servers are checked first |
| Tests.Test.constructor | speedtest_library.rb:110-112 | a new test holds its servers, its transfer file and no results |
| Tests.Test.UploadRateBps | speedtest_library.rb:131-152 | an AFP server gets the test file copied to its destination file, and the rate's amount is `bytes*8`; a missing test file, or a destination that is the test file itself, raises from the copy; other protocols raise "Unable to handle protocol" |
| Tests.Test.InplaceEditingOpsPerSec | speedtest_library.rb:154-172 | an AFP server's destination file is edited as `EditFile` says, and the rate's amount is 30; any other server reaches the rate computation with nil time stamps and raises |
| Tests.Test.DownloadRateBps | speedtest_library.rb:174-197 | the destination file is copied back over the test file and then deleted, and the rate's amount is `bytes*8`; a missing destination file, or one that is the test file itself, raises before the delete |
| Tests.Test.UploadPhase | speedtest_library.rb:117-119 | when it goes through, `afp_destfile` is the server's destination file, which holds a copy of the test file, and the log is `connect`, the copy, then `disconnect` |
| Tests.Test.EditPhase | speedtest_library.rb:120-122 | when it goes through, the test file has more than 1000 bytes and the destination file holds the 30 drawn edits applied in order; the log is `connect`, the editing, then `disconnect` |
| Tests.Test.DownloadPhase | speedtest_library.rb:123-125 | when it goes through, the test file holds the destination file's bytes and the destination file is gone; the log is `connect`, copy back, delete, then `disconnect` |
| Tests.Test.RoundResult | speedtest_library.rb:126 | the row of a round that went through: the server, `bytes*8` for both transfers, and 30 edits; `RunRound` appends exactly this row |
| Tests.Test.RoundResults | speedtest_library.rb:126 | the first n rounds append exactly n rows |
| Tests.Test.RoundResultsAt | speedtest_library.rb:116-126 | row k belongs to server k: one row per server, in server order |
| Tests.Test.RunServer | speedtest_library.rb:117-126 | when the three phases go through: the server is AFP; the test file has more than 1000 bytes; the edits are the next 30 draws; the log is the round's three bracketed phases; the test file holds the edited upload; the destination file is gone |
| Tests.Test.RunRound | speedtest_library.rb:116-127 | a round that went through appends exactly its row and logs exactly its round; no file appears and the destination file is gone. A failed round appends nothing |
| Tests.Test.Run | speedtest_library.rb:115-129 | results are appended one per server in server order, also before a raised error stops the run. When the run goes through, every server is AFP, the log is the rounds' actions one after the other, no destination file is left, and no file appeared |
| Tests.NewTest | speedtest_library.rb:106-113 | `Test.new` fails exactly when `CheckTestParams` does, with its error; otherwise a fresh test with no results |

## Left out

- `df -m`, `umount` and the Finder mount are not executed. The mount table
  is the oracle `mountTable`, and a command is only an entry in the log. The
  commands are a structured `Command`; `CommandLine` gives their text.
- `sleep 1` is timing only and has no logical effect.
- `Time.now` and the floating-point rate divisions are not modelled. A
  `Rate` keeps only the amount divided: the bits transferred, or the number
  of edits.
- `puts` and `STDERR.puts` logging is not modelled.
- The raised messages are not modelled as text. Each `raise` is one `Error`
  constructor carrying the values its message interpolates.
- `Tempfile` internals are left out. `tempPath` stands for the path
  `Tempfile` picks, and the file's removal at exit is not modelled.
- IO buffering of the handle `File.new(path, "r+")` opens: writes through
  it reach the file when it is closed, which is when the library next looks
  at it.
- Environment.World.WriteFile and TestFiles.NewTestFile: the `Tempfile`
  write is taken to reach the file at once. The library never flushes or
  closes the `Tempfile`, so this holds only for writes of at least Ruby's
  IO buffer size (8 KiB), such as the default 1,000,000 bytes. For
  `1000 < bytes < 8192`, the program would upload a file that is still
  empty, while the model uploads `bytes` random bytes.
- Environment.FileHandle.Read returns no bytes at or past the end of the
  file, where Ruby's `IO#read` returns nil. The library discards what is
  read, so it cannot tell the two apart.
- The file system is a flat map from path to bytes. Directories and mount
  points are not modelled as file-system objects. Links are not modelled
  either, so `FileUtils.copy`'s "same file" test is equality of paths.
- Ruby symbols are modelled by their names (`"afp"`, `"ssh"`, `"random"`).
  Parameters are a record of optional fields, not a hash.
- `speedtest.rb` is not part of this model: it is an unfinished
  configuration script, not valid Ruby as written.
- Tests.Test.UploadPhase, Tests.Test.EditPhase, Tests.Test.DownloadPhase and
  Tests.Test.RunServer state the world only for the success path. After a
  raised error the state is whatever the operations done so far left;
  `Server#connect`, `umount` and the three measurements each state their own
  error cases.
- Servers.Server.Disconnect: no lemma states that a `connect` followed by a
  `disconnect` restores the mount table. The mount table is an oracle here,
  so the model cannot tie a command to what is reported afterwards, just as
  the library itself cannot.
- Servers.Server.Disconnect does not reset `afp_destfile`. The library keeps
  it after `disconnect`, and the model follows the library.
- `filesystem` returning the empty string counts as a reading. Ruby treats
  `""` as true, so it reaches the "Unhandled pattern" error. The model
  follows that behaviour rather than treating it as "nothing mounted".
- Tests.EditFile: with a test file of at most 1000 bytes, `Random.rand`
  raises ArgumentError at the first draw and the handle is never closed. The
  model raises the same way and leaves the handle open. It states no
  cleanup.
- `World.reading` is fixed by the `World` constructor to `FilesystemOf` of
  the mount table. It lets the model speak of the readings without
  re-deriving them from `df` output each time.
- Tests.Test.Run states the log as the concatenation of per-round segments.
  Each segment is the `RoundLog` of its server and round, through the
  predicate `RoundLogged`, rather than by one recursive function over all
  rounds.
