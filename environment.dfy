/** The world outside the library: the mount table, the files the library
    copies and edits, the random number generator, the process id, and the
    commands the library runs.  The library only ever reaches these through
    shell commands and library calls, so they are oracles here:

    - `mountTable(path, n)` is what the operating system reports for `path`
      at the n-th call of `filesystem` (counted over the whole run), so the
      values `filesystem(path)` returns over time form a sequence;
    - `rng(n)` is the n-th number drawn from Ruby's default generator;
    - `files` maps each path to its bytes;
    - `log` records, in order, every action the library takes on the world.

    Shell commands have no effect in the model beyond their record in
    `log`: whether a mount or unmount took effect is seen only through what
    `mountTable` reports afterwards, which is how the library itself
    decides it. */
module Environment {
  import opened Errors
  import opened FilesystemProbe

  newtype byte = b: int | 0 <= b < 256

  /** A shell command the library runs; `CommandLine` is its text. */
  datatype Command =
    | MountVolume(host: string, volume: string) // the Finder mount in `connect`
    | UnmountPath(path: string)                 // the `umount` in `umount(path)`

  function CommandLine(c: Command): string {
    match c
    case MountVolume(host, volume) =>
      "osascript -e 'tell application \"Finder\" to mount volume \"afp://" + host + "/" + volume + "\"'"
    case UnmountPath(path) => "umount " + path
  }

  datatype Action =
    | Probe(path: string)                  // filesystem(path)
    | Shell(command: Command)              // system(...) or `...`
    | Copy(source: string, destination: string) // FileUtils.copy
    | CreateTempfile(path: string)         // Tempfile.new
    | Open(path: string)                   // File.new(path, "r+")
    | Seek(path: string, offset: nat)      // IO#seek
    | Read(path: string, count: nat)       // IO#read
    | Write(path: string, data: seq<byte>) // IO#write
    | Close(path: string)                  // IO#close
    | Unlink(path: string)                 // FileUtils.safe_unlink

  /** `content` after writing `data` at `offset`: the bytes at
      `offset..offset+|data|` are replaced, a write past the end extends the
      file, and a gap before `offset` reads as zero bytes. */
  function Overwrite(content: seq<byte>, offset: nat, data: seq<byte>): (r: seq<byte>)
    ensures |r| == if offset + |data| > |content| then offset + |data| else |content|
    ensures forall i :: offset <= i < offset + |data| ==> r[i] == data[i - offset]
    ensures forall i :: 0 <= i < |r| && !(offset <= i < offset + |data|) ==>
              r[i] == if i < |content| then content[i] else 0
  {
    if offset <= |content| then
      content[..offset] + data + (if offset + |data| < |content| then content[offset + |data|..] else [])
    else
      content + seq(offset - |content|, _ => 0) + data
  }

  /** The bytes `Array.new(n) { rand(256) }.pack('c*')` produces when the
      generator's draws start at number `at`. */
  function DrawnBytes(rng: nat -> nat, at: nat, n: nat): (r: seq<byte>)
    ensures |r| == n
    ensures forall i :: 0 <= i < n ==> r[i] as int == rng(at + i) % 256
  {
    seq(n, i requires 0 <= i < n => (rng(at + i) % 256) as byte)
  }

  /** Proof step: regrouping the pieces of a log. */
  lemma AppendAssoc<T>(a: seq<T>, b: seq<T>, c: seq<T>)
    ensures a + b + c == a + (b + c)
  {
  }

  class World {
    const mountTable: (string, nat) -> DfReport
    const rng: nat -> nat
    const pid: nat
    /** `reading(path, n)` is what `filesystem(path)` returns at the n-th
        probe: the library's reading `FilesystemOf` of what `mountTable`
        reports then.  The constructor fixes it to exactly that. */
    const reading: (string, nat) -> Option<string>
    var probes: nat
    var draws: nat
    var files: map<string, seq<byte>>
    var log: seq<Action>

    constructor (mountTable: (string, nat) -> DfReport, rng: nat -> nat, pid: nat, files: map<string, seq<byte>>)
      ensures this.mountTable == mountTable && this.rng == rng && this.pid == pid
      ensures this.files == files && probes == 0 && draws == 0 && log == []
      ensures forall path, n :: reading(path, n) == FilesystemOf(mountTable(path, n))
    {
      this.mountTable := mountTable;
      this.reading := (p: string, n: nat) => FilesystemOf(mountTable(p, n));
      this.rng := rng;
      this.pid := pid;
      this.files := files;
      probes := 0;
      draws := 0;
      log := [];
    }

    /** What `filesystem(path)` returns at the k-th of the calls made from
        call number `from` on. */
    function Observations(path: string, from: nat): nat -> Option<string>
    {
      (k: nat) => reading(path, from + k)
    }

    /** `filesystem(path)`. */
    method Filesystem(path: string) returns (fs: Option<string>)
      modifies this`probes, this`log
      ensures fs == Observations(path, old(probes))(0)
      ensures probes == old(probes) + 1
      ensures log == old(log) + [Probe(path)]
    {
      fs := reading(path, probes);
      probes := probes + 1;
      log := log + [Probe(path)];
    }

    /** A shell command whose exit status the library ignores. */
    method Run(command: Command)
      modifies this`log
      ensures log == old(log) + [Shell(command)]
    {
      log := log + [Shell(command)];
    }

    /** `FileUtils.copy(source, destination)`: raises when the source does
        not exist, and refuses to copy an existing file onto itself (in
        this flat file system, a path names a file only once). */
    method CopyFile(source: string, destination: string) returns (r: Outcome)
      modifies this`files, this`log
      ensures log == old(log) + [Copy(source, destination)]
      ensures source in old(files) && source != destination ==>
        r == Pass && files == old(files)[destination := old(files)[source]]
      ensures source in old(files) && source == destination ==> r == Fail(SameFile(source)) && files == old(files)
      ensures source !in old(files) ==> r == Fail(NoSuchFile(source)) && files == old(files)
    {
      log := log + [Copy(source, destination)];
      if source !in files {
        r := Fail(NoSuchFile(source));
      } else if source == destination {
        r := Fail(SameFile(source));
      } else {
        files := files[destination := files[source]];
        r := Pass;
      }
    }

    /** `Tempfile.new(basename)` creating the empty file `path`. */
    method CreateTemporary(path: string)
      modifies this`files, this`log
      ensures files == old(files)[path := []]
      ensures log == old(log) + [CreateTempfile(path)]
    {
      files := files[path := []];
      log := log + [CreateTempfile(path)];
    }

    /** `File.new(path, "r+")`: a handle at the start of the file; raises
        when the file does not exist. */
    method OpenFile(path: string) returns (r: Result<FileHandle>)
      modifies this`log
      ensures log == old(log) + [Open(path)]
      ensures path in files ==>
        r.Success? && fresh(r.value) && r.value.path == path && r.value.content == files[path] && r.value.position == 0
      ensures path !in files ==> r == Failure(NoSuchFile(path))
    {
      log := log + [Open(path)];
      if path in files {
        var handle := new FileHandle(path, files[path]);
        r := Success(handle);
      } else {
        r := Failure(NoSuchFile(path));
      }
    }

    /** `Tempfile#write(data)` with the position at `offset`. */
    method WriteFile(path: string, offset: nat, data: seq<byte>)
      modifies this`files, this`log
      ensures files == old(files)[path := Overwrite(if path in old(files) then old(files)[path] else [], offset, data)]
      ensures log == old(log) + [Write(path, data)]
    {
      var content := if path in files then files[path] else [];
      files := files[path := Overwrite(content, offset, data)];
      log := log + [Write(path, data)];
    }

    /** `FileUtils.safe_unlink(path)`: removes the file, ignoring errors. */
    method SafeUnlink(path: string)
      modifies this`files, this`log
      ensures files == old(files) - {path}
      ensures log == old(log) + [Unlink(path)]
    {
      files := files - {path};
      log := log + [Unlink(path)];
    }

    /** `Random.rand(max)`: a number in `0..max-1`; raises ArgumentError
        when `max` is not positive. */
    method RandomRand(max: int) returns (r: Result<int>)
      modifies this`draws
      ensures max <= 0 ==> r == Failure(InvalidArgument(max)) && draws == old(draws)
      ensures max > 0 ==> r == Success(rng(old(draws)) % max) && draws == old(draws) + 1
      ensures r.Success? ==> 0 <= r.value < max
    {
      if max <= 0 {
        r := Failure(InvalidArgument(max));
      } else {
        r := Success(rng(draws) % max);
        draws := draws + 1;
      }
    }

    /** `rand(256)`. */
    method Rand256() returns (b: byte)
      modifies this`draws
      ensures b as int == rng(old(draws)) % 256
      ensures draws == old(draws) + 1
    {
      b := (rng(draws) % 256) as byte;
      draws := draws + 1;
    }
  }

  /** An open `File`: its path, the bytes as seen through it, and the
      position of the next read or write.  What is written through the
      handle reaches the file system when it is closed. */
  class FileHandle {
    const path: string
    var content: seq<byte>
    var position: nat

    constructor (path: string, content: seq<byte>)
      ensures this.path == path && this.content == content && position == 0
    {
      this.path := path;
      this.content := content;
      position := 0;
    }

    /** `IO#seek(offset)`. */
    method Seek(world: World, offset: nat)
      modifies this`position, world`log
      ensures position == offset
      ensures world.log == old(world.log) + [Action.Seek(path, offset)]
    {
      position := offset;
      world.log := world.log + [Action.Seek(path, offset)];
    }

    /** `IO#read(count)`: up to `count` bytes from the position, fewer at
        the end of the file; the position moves past them.  At or past the
        end Ruby returns nil where this returns no bytes; the library
        discards what is read, so the two are alike to it. */
    method Read(world: World, count: nat) returns (data: seq<byte>)
      modifies this`position, world`log
      ensures var start := if old(position) < |content| then old(position) else |content|;
        var stop := if old(position) + count < |content| then old(position) + count else |content|;
        data == content[start..stop]
      ensures position == old(position) + |data|
      ensures world.log == old(world.log) + [Action.Read(path, count)]
    {
      var start := if position < |content| then position else |content|;
      var stop := if position + count < |content| then position + count else |content|;
      data := content[start..stop];
      position := position + |data|;
      world.log := world.log + [Action.Read(path, count)];
    }

    /** `IO#write(data)`: overwrites from the position on, extending the
        file past its end; the position moves past the bytes written. */
    method Write(world: World, data: seq<byte>)
      modifies this`content, this`position, world`log
      ensures content == Overwrite(old(content), old(position), data)
      ensures position == old(position) + |data|
      ensures world.log == old(world.log) + [Action.Write(path, data)]
    {
      content := Overwrite(content, position, data);
      position := position + |data|;
      world.log := world.log + [Action.Write(path, data)];
    }

    /** `IO#close`: the file now holds what was written through the
        handle. */
    method Close(world: World)
      modifies world`files, world`log
      ensures world.files == old(world.files)[path := content]
      ensures world.log == old(world.log) + [Action.Close(path)]
    {
      world.files := world.files[path := content];
      world.log := world.log + [Action.Close(path)];
    }
  }

  /** `Array.new(n) { rand(256) }.pack('c*')`: `n` bytes, one per draw. */
  method RandomBytes(world: World, n: nat) returns (data: seq<byte>)
    modifies world`draws
    ensures data == DrawnBytes(world.rng, old(world.draws), n)
    ensures world.draws == old(world.draws) + n
  {
    data := [];
    while |data| < n
      invariant |data| <= n
      invariant world.draws == old(world.draws) + |data|
      invariant forall i :: 0 <= i < |data| ==> data[i] as int == world.rng(old(world.draws) + i) % 256
    {
      var b := world.Rand256();
      data := data + [b];
    }
    assert data == DrawnBytes(world.rng, old(world.draws), n);
  }
}
