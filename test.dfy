/** `Test` (speedtest_library.rb:105-199): the benchmark itself.  For every
    server, in order, `run` measures an upload, a batch of in-place edits
    and a download, each phase between its own `connect` and `disconnect`,
    and appends one result per server.

    Rates are quotients of an amount by the wall-clock time the phase took;
    the clock is not modelled, so a `Rate` keeps the amount only: the bits
    transferred for an upload or download, the operation count for the
    edits. */
module Tests {
  import opened Errors
  import opened Environment
  import opened Unmount
  import opened Servers
  import opened TestFiles

  /** `ops` in `inplace_editing_ops_per_sec`. */
  const OPS: nat := 30
  /** Bytes read and written by each in-place edit. */
  const EDIT_SIZE: nat := 1000
  /** Random draws per edit: the read offset, the write offset, the bytes. */
  const DRAWS_PER_EDIT: nat := 2 + EDIT_SIZE

  /** `amount` per elapsed second of the measured phase. */
  datatype Rate = Rate(amount: int)

  /** One element of `@test_results`. */
  datatype TestResult = TestResult(server: Server, uploadRateBps: Rate, inplaceEditingOpsPerSec: Rate, downloadRateBps: Rate)

  /** One in-place edit: read 1000 bytes at `readAt`, write `data` at
      `writeAt`. */
  datatype Edit = Edit(readAt: nat, writeAt: nat, data: seq<byte>)

  /** The bounds `inplace_editing_ops_per_sec` draws its offsets from. */
  predicate EditInRange(e: Edit, bytes: int) {
    e.readAt < bytes - EDIT_SIZE && e.writeAt < bytes && |e.data| == EDIT_SIZE
  }

  /** The edit made from the generator's draws starting at number `at`:
      `Random.rand(bytes - 1000)`, `Random.rand(bytes)`, then 1000 times
      `rand(256)`. */
  function DrawnEdit(rng: nat -> nat, at: nat, bytes: int): (e: Edit)
    requires bytes > EDIT_SIZE
    ensures EditInRange(e, bytes)
  {
    Edit(rng(at) % (bytes - EDIT_SIZE), rng(at + 1) % bytes, DrawnBytes(rng, at + 2, EDIT_SIZE))
  }

  /** The first `n` edits drawn from the generator's draws starting at
      number `at`, each using the next `DRAWS_PER_EDIT` draws. */
  function DrawnEdits(rng: nat -> nat, at: nat, bytes: int, n: nat): (edits: seq<Edit>)
    requires n == 0 || bytes > EDIT_SIZE
    ensures |edits| == n
    ensures forall k :: 0 <= k < n ==> EditInRange(edits[k], bytes)
  {
    if n == 0 then [] else DrawnEdits(rng, at, bytes, n - 1) + [DrawnEdit(rng, at + (n - 1) * DRAWS_PER_EDIT, bytes)]
  }

  /** Drawing one more edit appends the edit made from the next draws. */
  lemma DrawnEditsSnoc(rng: nat -> nat, at: nat, bytes: int, n: nat)
    requires bytes > EDIT_SIZE
    ensures DrawnEdits(rng, at, bytes, n + 1) == DrawnEdits(rng, at, bytes, n) + [DrawnEdit(rng, at + n * DRAWS_PER_EDIT, bytes)]
  {
  }

  /** Proof step: the draws of `n + 1` edits are those of `n` edits and
      one more edit's. */
  lemma DrawsStep(n: nat)
    ensures (n + 1) * DRAWS_PER_EDIT == n * DRAWS_PER_EDIT + DRAWS_PER_EDIT
  {
  }

  /** Edit number `k` is made from draws `k * 1002` to `k * 1002 + 1001`
      after `at`. */
  lemma {:induction false} DrawnEditAt(rng: nat -> nat, at: nat, bytes: int, n: nat, k: nat)
    requires bytes > EDIT_SIZE && k < n
    ensures DrawnEdits(rng, at, bytes, n)[k] == DrawnEdit(rng, at + k * DRAWS_PER_EDIT, bytes)
  {
    if k < n - 1 {
      DrawnEditAt(rng, at, bytes, n - 1, k);
    }
  }

  /** The file after the edits, in order. */
  function ApplyEdits(content: seq<byte>, edits: seq<Edit>): seq<byte>
  {
    if edits == [] then content
    else
      var last := edits[|edits| - 1];
      Overwrite(ApplyEdits(content, edits[..|edits| - 1]), last.writeAt, last.data)
  }

  /** The edits never shrink the file; since a write may start anywhere
      before `bytes`, the file ends up at most 999 bytes longer than
      `bytes`, and keeps its size when every write ends inside the first
      `bytes` bytes.  The file need not hold exactly `bytes` bytes: from the
      second server on, the test file is the one the previous round copied
      back, already grown by its edits. */
  lemma {:induction false} EditsKeepSize(content: seq<byte>, edits: seq<Edit>, bytes: int)
    requires bytes <= |content| < bytes + EDIT_SIZE
    requires forall k :: 0 <= k < |edits| ==> EditInRange(edits[k], bytes)
    ensures |content| <= |ApplyEdits(content, edits)| < bytes + EDIT_SIZE
    ensures (forall k :: 0 <= k < |edits| ==> edits[k].writeAt + EDIT_SIZE <= bytes) ==>
              |ApplyEdits(content, edits)| == |content|
  {
    if edits != [] {
      EditsKeepSize(content, edits[..|edits| - 1], bytes);
    }
  }

  function EditOpLog(path: string, e: Edit): seq<Action> {
    [Seek(path, e.readAt), Read(path, EDIT_SIZE), Seek(path, e.writeAt), Write(path, e.data)]
  }

  function EditOpsLog(path: string, edits: seq<Edit>): seq<Action> {
    if edits == [] then []
    else EditOpsLog(path, edits[..|edits| - 1]) + EditOpLog(path, edits[|edits| - 1])
  }

  /** One more edit is one more write, and four more actions. */
  lemma EditsSnoc(content: seq<byte>, path: string, edits: seq<Edit>, e: Edit)
    ensures ApplyEdits(content, edits + [e]) == Overwrite(ApplyEdits(content, edits), e.writeAt, e.data)
    ensures EditOpsLog(path, edits + [e]) == EditOpsLog(path, edits) + EditOpLog(path, e)
  {
    assert (edits + [e])[..|edits|] == edits;
  }

  /** Each edit writes its bytes at its own offset, in order. */
  lemma {:induction false} EditOpsLogWrites(path: string, edits: seq<Edit>, k: nat)
    requires k < |edits|
    ensures |EditOpsLog(path, edits)| == 4 * |edits|
    ensures EditOpsLog(path, edits)[4 * k..4 * k + 4] == EditOpLog(path, edits[k])
  {
    var prefix := edits[..|edits| - 1];
    if k < |edits| - 1 {
      EditOpsLogWrites(path, prefix, k);
      assert prefix[k] == edits[k];
    } else if prefix != [] {
      EditOpsLogWrites(path, prefix, 0);
    }
  }

  /** The actions of a measured phase that went through: `connect`, the
      measurement, then a `disconnect` whose `umount` issued `n` commands. */
  function PhaseLog(c: ValidConfig, measurement: seq<Action>, n: nat): seq<Action>
    requires c.protocol == AFP
  {
    ConnectLog(c) + measurement + UmountLog(MountPoint(c.afpVolume.value), n)
  }

  /** `upload_rate_bps`: the test file copied to the destination file. */
  function UploadLog(c: ValidConfig, transferPath: string, pid: nat): seq<Action>
    requires c.protocol == AFP
  {
    [Copy(transferPath, DestFile(c.afpVolume.value, pid))]
  }

  /** `inplace_editing_ops_per_sec`: one handle for the whole batch, four
      actions per edit. */
  function EditingLog(c: ValidConfig, pid: nat, edits: seq<Edit>): seq<Action>
    requires c.protocol == AFP
  {
    var dest := DestFile(c.afpVolume.value, pid);
    [Open(dest)] + EditOpsLog(dest, edits) + [Close(dest)]
  }

  /** `download_rate_bps`: the destination file copied back, then removed. */
  function DownloadLog(c: ValidConfig, transferPath: string, pid: nat): seq<Action>
    requires c.protocol == AFP
  {
    var dest := DestFile(c.afpVolume.value, pid);
    [Copy(dest, transferPath), Unlink(dest)]
  }

  /** What a round of `run` that went through leaves open beyond its
      inputs: how many `umount` commands each of its three `disconnect`s
      issued, and the edits the generator produced. */
  datatype Round = Round(uploadUmounts: nat, editUmounts: nat, downloadUmounts: nat, edits: seq<Edit>)

  /** Every round has this shape: each `umount` gives up after five
      commands, and there are 30 edits within the file's bounds. */
  predicate RoundInBounds(t: Round, bytes: int) {
    && t.uploadUmounts <= MaxAttempts && t.editUmounts <= MaxAttempts && t.downloadUmounts <= MaxAttempts
    && |t.edits| == OPS && forall k :: 0 <= k < |t.edits| ==> EditInRange(t.edits[k], bytes)
  }

  /** The actions of one round of `run` that went through: the three
      phases. */
  function RoundLog(c: ValidConfig, transferPath: string, pid: nat, t: Round): seq<Action>
    requires c.protocol == AFP
  {
    PhaseLog(c, UploadLog(c, transferPath, pid), t.uploadUmounts)
    + PhaseLog(c, EditingLog(c, pid, t.edits), t.editUmounts)
    + PhaseLog(c, DownloadLog(c, transferPath, pid), t.downloadUmounts)
  }

  /** The actions of several rounds, one after the other. */
  function Flatten(segments: seq<seq<Action>>): seq<Action>
  {
    if segments == [] then [] else Flatten(segments[..|segments| - 1]) + segments[|segments| - 1]
  }

  lemma FlattenSnoc(segments: seq<seq<Action>>, segment: seq<Action>)
    ensures Flatten(segments + [segment]) == Flatten(segments) + segment
  {
    assert (segments + [segment])[..|segments|] == segments;
  }

  /** `segments[k]` is the actions of round `rounds[k]`, on `servers[k]`. */
  predicate RoundLogged(servers: seq<Server>, transferPath: string, pid: nat, rounds: seq<Round>,
                        segments: seq<seq<Action>>, k: nat)
    requires k < |rounds| <= |servers| && k < |segments|
    requires servers[k].config.protocol == AFP
  {
    segments[k] == RoundLog(servers[k].config, transferPath, pid, rounds[k])
  }

  /** A round that went through adds its own actions as the next segment. */
  lemma RoundLoggedSnoc(servers: seq<Server>, transferPath: string, pid: nat, n: nat, rounds: seq<Round>,
                        segments: seq<seq<Action>>, t: Round, segment: seq<Action>)
    requires n == |rounds| == |segments| < |servers|
    requires forall k :: 0 <= k < n ==> servers[k].config.protocol == AFP
    requires servers[n].config.protocol == AFP
    requires forall k :: 0 <= k < n ==> RoundLogged(servers, transferPath, pid, rounds, segments, k)
    requires segment == RoundLog(servers[n].config, transferPath, pid, t)
    ensures forall k :: 0 <= k < n + 1 ==> RoundLogged(servers, transferPath, pid, rounds + [t], segments + [segment], k)
  {
    forall k | 0 <= k < n + 1
      ensures RoundLogged(servers, transferPath, pid, rounds + [t], segments + [segment], k)
    {
      if k < n {
        assert RoundLogged(servers, transferPath, pid, rounds, segments, k);
        assert (rounds + [t])[k] == rounds[k];
      }
    }
  }

  /** After a round the test file holds the edited upload and the
      destination file is gone: copying the test file to the destination,
      editing the copy and copying it back is editing the test file. */
  lemma RoundFiles(files0: map<string, seq<byte>>, source: string, dest: string, edits: seq<Edit>)
    requires source in files0 && source != dest
    ensures var uploaded := files0[dest := files0[source]];
      var edited := uploaded[dest := ApplyEdits(uploaded[dest], edits)];
      edited[source := edited[dest]] - {dest} == files0[source := ApplyEdits(files0[source], edits)] - {dest}
  {
  }

  /** One turn of `ops.times` in `inplace_editing_ops_per_sec`
      (speedtest_library.rb:161-166) on the open file `file1`: seek to a
      random offset that leaves room for 1000 bytes and read them, then seek
      to a random offset inside the file and write 1000 random bytes there.
      The first draw raises when the file has at most 1000 bytes. */
  method EditOp(world: World, file1: FileHandle, bytes: int) returns (r: Result<Edit>)
    modifies file1`content, file1`position, world`log, world`draws
    ensures bytes <= EDIT_SIZE ==>
      r == Failure(InvalidArgument(bytes - EDIT_SIZE)) && file1.content == old(file1.content)
      && world.log == old(world.log) && world.draws == old(world.draws)
    ensures bytes > EDIT_SIZE ==>
      && r == Success(DrawnEdit(world.rng, old(world.draws), bytes))
      && world.draws == old(world.draws) + DRAWS_PER_EDIT
      && file1.content == Overwrite(old(file1.content), r.value.writeAt, r.value.data)
      && file1.position == r.value.writeAt + EDIT_SIZE
      && world.log == old(world.log) + EditOpLog(file1.path, r.value)
  {
    var readAt := world.RandomRand(bytes - EDIT_SIZE);
    if readAt.Failure? {
      return Failure(readAt.error);
    }
    file1.Seek(world, readAt.value);
    var _ := file1.Read(world, EDIT_SIZE);
    var writeAt := world.RandomRand(bytes);
    file1.Seek(world, writeAt.value);
    var data := RandomBytes(world, EDIT_SIZE);
    file1.Write(world, data);
    r := Success(Edit(readAt.value, writeAt.value, data));
  }

  /** What `inplace_editing_ops_per_sec` does to the world through the
      destination file `dest` of a test file of `bytes` bytes, from the
      files, log and draw count it started with: it opens the file (which
      raises when the file does not exist), makes 30 edits drawn one after
      the other from the generator, and closes it.  A file of at most 1000
      bytes makes the first draw raise, leaving the handle open. */
  ghost predicate EditsFile(files0: map<string, seq<byte>>, log0: seq<Action>, draws0: nat, world: World, dest: string, bytes: int, r: Result<seq<Edit>>)
    reads world
  {
    if dest !in files0 || bytes <= EDIT_SIZE then
      && r == Failure(if dest !in files0 then NoSuchFile(dest) else InvalidArgument(bytes - EDIT_SIZE))
      && world.files == files0 && world.log == log0 + [Open(dest)] && world.draws == draws0
    else
      && r.Success?
      && |r.value| == OPS
      && r.value == DrawnEdits(world.rng, draws0, bytes, OPS)
      && world.draws == draws0 + OPS * DRAWS_PER_EDIT
      && world.files == files0[dest := ApplyEdits(files0[dest], r.value)]
      && world.log == log0 + [Open(dest)] + EditOpsLog(dest, r.value) + [Close(dest)]
  }

  /** `ops.times do ... end` in `inplace_editing_ops_per_sec`
      (speedtest_library.rb:161-166) on the open file `file1`: the edits
      drawn one after the other, applied in order.  With a file of at most
      1000 bytes the first draw raises before anything is done. */
  method EditLoop(world: World, file1: FileHandle, bytes: int, ops: nat) returns (r: Result<seq<Edit>>)
    requires ops == OPS
    modifies file1`content, file1`position, world`log, world`draws
    ensures bytes <= EDIT_SIZE ==>
      r == Failure(InvalidArgument(bytes - EDIT_SIZE)) && file1.content == old(file1.content)
      && world.log == old(world.log) && world.draws == old(world.draws)
    ensures bytes > EDIT_SIZE ==>
      && r == Success(DrawnEdits(world.rng, old(world.draws), bytes, OPS))
      && world.draws == old(world.draws) + OPS * DRAWS_PER_EDIT
      && file1.content == ApplyEdits(old(file1.content), r.value)
      && world.log == old(world.log) + EditOpsLog(file1.path, r.value)
  {
    var edits: seq<Edit> := [];
    var n := 0;
    while n < ops
      invariant 0 <= n <= ops
      invariant n > 0 ==> bytes > EDIT_SIZE
      invariant world.draws == old(world.draws) + n * DRAWS_PER_EDIT
      invariant edits == DrawnEdits(world.rng, old(world.draws), bytes, n)
      invariant file1.content == ApplyEdits(old(file1.content), edits)
      invariant world.log == old(world.log) + EditOpsLog(file1.path, edits)
    {
      ghost var at := world.draws;
      var op := EditOp(world, file1, bytes);
      if op.Failure? {
        return Failure(op.error);
      }
      assert op.value == DrawnEdit(world.rng, at, bytes);
      EditsSnoc(old(file1.content), file1.path, edits, op.value);
      AppendAssoc(old(world.log), EditOpsLog(file1.path, edits), EditOpLog(file1.path, op.value));
      DrawnEditsSnoc(world.rng, old(world.draws), bytes, n);
      DrawsStep(n);
      edits := edits + [op.value];
      n := n + 1;
    }
    r := Success(edits);
  }

  /** The `when :afp` branch of `inplace_editing_ops_per_sec`
      (speedtest_library.rb:158-168): `ops` edits through one handle. */
  method EditFile(world: World, dest: string, bytes: int, ops: nat) returns (r: Result<seq<Edit>>)
    requires ops == OPS
    modifies world`files, world`log, world`draws
    ensures EditsFile(old(world.files), old(world.log), old(world.draws), world, dest, bytes, r)
  {
    var handle := world.OpenFile(dest);
    if handle.Failure? {
      return Failure(handle.error);
    }
    var file1 := handle.value;
    r := EditLoop(world, file1, bytes, ops);
    if r.Failure? {
      return;
    }
    file1.Close(world);
  }

  /** The two `raise ... unless` lines of `Test#initialize`
      (speedtest_library.rb:107-108). */
  function CheckTestParams(servers: Option<seq<Server>>, transferFile: Option<TestFile>): (r: Outcome)
    ensures r.Pass? <==> servers.Some? && transferFile.Some?
    ensures servers.None? ==> r == Fail(ServersRequired)
    ensures servers.Some? && transferFile.None? ==> r == Fail(TransferFileRequired)
  {
    if servers.None? then Fail(ServersRequired)
    else if transferFile.None? then Fail(TransferFileRequired)
    else Pass
  }

  class Test {
    const servers: seq<Server>
    const transferFile: TestFile
    var testResults: seq<TestResult>

    constructor (servers: seq<Server>, transferFile: TestFile)
      ensures this.servers == servers && this.transferFile == transferFile && testResults == []
    {
      this.servers := servers;
      this.transferFile := transferFile;
      testResults := [];
    }

    /** `upload_rate_bps(server)` (speedtest_library.rb:131-152): copy the
        test file to the server's destination file. */
    method UploadRateBps(world: World, server: Server) returns (r: Result<Rate>)
      modifies world`files, world`log
      ensures server.config.protocol != AFP ==>
        r == Failure(UnhandledProtocol(server.config.protocol))
        && world.files == old(world.files) && world.log == old(world.log)
      ensures server.config.protocol == AFP && server.afpDestfile.None? ==>
        r == Failure(NilDestination) && world.files == old(world.files) && world.log == old(world.log)
      ensures server.config.protocol == AFP && server.afpDestfile.Some? ==>
        var source, dest := transferFile.path, server.afpDestfile.value;
        && world.log == old(world.log) + [Copy(source, dest)]
        && if source !in old(world.files) then
             r == Failure(NoSuchFile(source)) && world.files == old(world.files)
           else if source == dest then
             r == Failure(SameFile(source)) && world.files == old(world.files)
           else
             r == Success(Rate(transferFile.bytes * 8)) && world.files == old(world.files)[dest := old(world.files)[source]]
    {
      if server.config.protocol == AFP {
        if server.afpDestfile.None? {
          return Failure(NilDestination);
        }
        var copied := world.CopyFile(transferFile.path, server.afpDestfile.value);
        if copied.Fail? {
          return Failure(copied.error);
        }
      } else {
        return Failure(UnhandledProtocol(server.config.protocol));
      }
      r := Success(Rate(transferFile.bytes * 8));
    }

    /** `inplace_editing_ops_per_sec(server)` (speedtest_library.rb:154-172).
        A non-AFP server reaches the rate computation with no time stamps;
        an AFP server edits its destination file with `EditFile`. */
    method InplaceEditingOpsPerSec(world: World, server: Server) returns (r: Result<Rate>, ghost edits: seq<Edit>)
      modifies world`files, world`log, world`draws
      ensures server.config.protocol != AFP ==>
        r == Failure(NilTimestamps)
        && world.files == old(world.files) && world.log == old(world.log) && world.draws == old(world.draws)
      ensures server.config.protocol == AFP && server.afpDestfile.None? ==>
        r == Failure(NilDestination)
        && world.files == old(world.files) && world.log == old(world.log) && world.draws == old(world.draws)
      ensures server.config.protocol == AFP && server.afpDestfile.Some? ==>
        EditsFile(old(world.files), old(world.log), old(world.draws), world, server.afpDestfile.value, transferFile.bytes,
                  if r.Success? then Success(edits) else Failure(r.error))
      ensures r.Success? ==> r.value == Rate(OPS)
    {
      edits := [];
      var ops := OPS;
      if server.config.protocol == AFP {
        if server.afpDestfile.None? {
          return Failure(NilDestination), edits;
        }
        var edited := EditFile(world, server.afpDestfile.value, transferFile.bytes, ops);
        if edited.Failure? {
          return Failure(edited.error), edits;
        }
        edits := edited.value;
      } else {
        return Failure(NilTimestamps), edits;
      }
      r := Success(Rate(ops));
    }

    /** `download_rate_bps(server)` (speedtest_library.rb:174-197): copy the
        destination file back over the test file, then delete it from the
        share. */
    method DownloadRateBps(world: World, server: Server) returns (r: Result<Rate>)
      modifies world`files, world`log
      ensures server.config.protocol != AFP ==>
        r == Failure(UnhandledProtocol(server.config.protocol))
        && world.files == old(world.files) && world.log == old(world.log)
      ensures server.config.protocol == AFP && server.afpDestfile.None? ==>
        r == Failure(NilDestination) && world.files == old(world.files) && world.log == old(world.log)
      ensures server.config.protocol == AFP && server.afpDestfile.Some? ==>
        var dest, target := server.afpDestfile.value, transferFile.path;
        if dest !in old(world.files) then
          && r == Failure(NoSuchFile(dest))
          && world.files == old(world.files) && world.log == old(world.log) + [Copy(dest, target)]
        else if dest == target then
          && r == Failure(SameFile(dest))
          && world.files == old(world.files) && world.log == old(world.log) + [Copy(dest, target)]
        else
          && r == Success(Rate(transferFile.bytes * 8))
          && world.files == old(world.files)[target := old(world.files)[dest]] - {dest}
          && world.log == old(world.log) + [Copy(dest, target), Unlink(dest)]
    {
      if server.config.protocol == AFP {
        if server.afpDestfile.None? {
          return Failure(NilDestination);
        }
        var copied := world.CopyFile(server.afpDestfile.value, transferFile.path);
        if copied.Fail? {
          return Failure(copied.error);
        }
      } else {
        return Failure(UnhandledProtocol(server.config.protocol));
      }
      world.SafeUnlink(server.afpDestfile.value);
      r := Success(Rate(transferFile.bytes * 8));
    }

    /** `server.connect`, `upload_rate_bps(server)`, `server.disconnect`
        (speedtest_library.rb:117-119). */
    method UploadPhase(world: World, server: Server) returns (r: Result<Rate>, ghost n: nat)
      modifies server`afpDestfile, world`probes, world`log, world`files, world`draws
      ensures r.Success? ==>
        && server.config.protocol == AFP
        && var source, dest := transferFile.path, DestFile(server.config.afpVolume.value, world.pid);
        && server.afpDestfile == Some(dest)
        && n <= MaxAttempts
        && r.value == Rate(transferFile.bytes * 8)
        && source in old(world.files) && source != dest
        && world.files == old(world.files)[dest := old(world.files)[source]]
        && world.draws == old(world.draws)
        && world.log == old(world.log) + PhaseLog(server.config, UploadLog(server.config, source, world.pid), n)
    {
      n := 0;
      var connected := server.Connect(world);
      if connected.Fail? {
        return Failure(connected.error), n;
      }
      ghost var log0 := world.log;
      r := UploadRateBps(world, server);
      if r.Failure? {
        return;
      }
      ghost var measurement := UploadLog(server.config, transferFile.path, world.pid);
      var disconnected;
      disconnected, n := server.Disconnect(world);
      if disconnected.Fail? {
        return Failure(disconnected.error), n;
      }
      AppendAssoc(old(world.log), ConnectLog(server.config), measurement);
      AppendAssoc(old(world.log), ConnectLog(server.config) + measurement, UmountLog(MountPoint(server.config.afpVolume.value), n));
    }

    /** `server.connect`, `inplace_editing_ops_per_sec(server)`,
        `server.disconnect` (speedtest_library.rb:120-122). */
    method EditPhase(world: World, server: Server) returns (r: Result<Rate>, ghost n: nat, ghost edits: seq<Edit>)
      modifies server`afpDestfile, world`probes, world`log, world`files, world`draws
      ensures r.Success? ==>
        && server.config.protocol == AFP
        && var dest := DestFile(server.config.afpVolume.value, world.pid);
        && server.afpDestfile == Some(dest)
        && n <= MaxAttempts
        && r.value == Rate(OPS)
        && transferFile.bytes > EDIT_SIZE
        && dest in old(world.files)
        && edits == DrawnEdits(world.rng, old(world.draws), transferFile.bytes, OPS)
        && world.files == old(world.files)[dest := ApplyEdits(old(world.files)[dest], edits)]
        && world.draws == old(world.draws) + OPS * DRAWS_PER_EDIT
        && world.log == old(world.log) + PhaseLog(server.config, EditingLog(server.config, world.pid, edits), n)
    {
      n, edits := 0, [];
      var connected := server.Connect(world);
      if connected.Fail? {
        return Failure(connected.error), n, edits;
      }
      r, edits := InplaceEditingOpsPerSec(world, server);
      if r.Failure? {
        return;
      }
      ghost var dest := DestFile(server.config.afpVolume.value, world.pid);
      ghost var measurement := EditingLog(server.config, world.pid, edits);
      AppendAssoc(old(world.log) + ConnectLog(server.config), [Open(dest)], EditOpsLog(dest, edits));
      AppendAssoc(old(world.log) + ConnectLog(server.config), [Open(dest)] + EditOpsLog(dest, edits), [Close(dest)]);
      var disconnected;
      disconnected, n := server.Disconnect(world);
      if disconnected.Fail? {
        return Failure(disconnected.error), n, edits;
      }
      AppendAssoc(old(world.log), ConnectLog(server.config), measurement);
      AppendAssoc(old(world.log), ConnectLog(server.config) + measurement, UmountLog(MountPoint(server.config.afpVolume.value), n));
    }

    /** `server.connect`, `download_rate_bps(server)`, `server.disconnect`
        (speedtest_library.rb:123-125). */
    method DownloadPhase(world: World, server: Server) returns (r: Result<Rate>, ghost n: nat)
      modifies server`afpDestfile, world`probes, world`log, world`files, world`draws
      ensures r.Success? ==>
        && server.config.protocol == AFP
        && var source, dest := transferFile.path, DestFile(server.config.afpVolume.value, world.pid);
        && server.afpDestfile == Some(dest)
        && n <= MaxAttempts
        && r.value == Rate(transferFile.bytes * 8)
        && dest in old(world.files) && dest != source
        && world.files == old(world.files)[source := old(world.files)[dest]] - {dest}
        && world.draws == old(world.draws)
        && world.log == old(world.log) + PhaseLog(server.config, DownloadLog(server.config, source, world.pid), n)
    {
      n := 0;
      var connected := server.Connect(world);
      if connected.Fail? {
        return Failure(connected.error), n;
      }
      r := DownloadRateBps(world, server);
      if r.Failure? {
        return;
      }
      ghost var dest := DestFile(server.config.afpVolume.value, world.pid);
      ghost var measurement := DownloadLog(server.config, transferFile.path, world.pid);
      var disconnected;
      disconnected, n := server.Disconnect(world);
      if disconnected.Fail? {
        return Failure(disconnected.error), n;
      }
      AppendAssoc(old(world.log), ConnectLog(server.config), measurement);
      AppendAssoc(old(world.log), ConnectLog(server.config) + measurement, UmountLog(MountPoint(server.config.afpVolume.value), n));
    }

    /** The row a round on `server` that went through appends: the upload
        and download rates are the file's size in bits (per unit of time),
        the editing rate the number of edits. */
    function RoundResult(server: Server): TestResult {
      TestResult(server, Rate(transferFile.bytes * 8), Rate(OPS), Rate(transferFile.bytes * 8))
    }

    /** The rows of the first `n` rounds, on `servers`, when they went
        through. */
    function RoundResults(n: nat): (rows: seq<TestResult>)
      requires n <= |servers|
      ensures |rows| == n
    {
      if n == 0 then [] else RoundResults(n - 1) + [RoundResult(servers[n - 1])]
    }

    /** Row `k` belongs to `servers[k]`: one row per server, in the order
        of `servers`. */
    lemma {:induction false} RoundResultsAt(n: nat, k: nat)
      requires k < n <= |servers|
      ensures RoundResults(n)[k] == RoundResult(servers[k]) && RoundResults(n)[k].server == servers[k]
    {
      if k < n - 1 {
        RoundResultsAt(n - 1, k);
      }
    }

    /** The three phases of one iteration of the loop in `run`
        (speedtest_library.rb:117-126).  When they go through, the server is
        an AFP server, the test file has more than 1000 bytes, the edits are
        the next 30 the generator yields, the log is the round's, the
        destination file is gone, and the test file holds the edited
        upload. */
    method RunServer(world: World, server: Server) returns (r: Result<TestResult>, ghost round: Round)
      modifies server`afpDestfile, world`probes, world`log, world`files, world`draws
      ensures r.Success? ==>
        && server.config.protocol == AFP && transferFile.bytes > EDIT_SIZE
        && var volume, source := server.config.afpVolume.value, transferFile.path;
        && var dest := DestFile(volume, world.pid);
        && server.afpDestfile == Some(dest)
        && r.value == RoundResult(server)
        && RoundInBounds(round, transferFile.bytes)
        && round.edits == DrawnEdits(world.rng, old(world.draws), transferFile.bytes, OPS)
        && world.draws == old(world.draws) + OPS * DRAWS_PER_EDIT
        && world.log == old(world.log) + RoundLog(server.config, source, world.pid, round)
        && source in old(world.files) && source != dest
        && world.files == old(world.files)[source := ApplyEdits(old(world.files)[source], round.edits)] - {dest}
    {
      round := Round(0, 0, 0, []);
      var uploadRateBps, n1 := UploadPhase(world, server);
      if uploadRateBps.Failure? {
        return Failure(uploadRateBps.error), round;
      }
      var inplaceEditingOpsPerSec, n2, edits := EditPhase(world, server);
      if inplaceEditingOpsPerSec.Failure? {
        return Failure(inplaceEditingOpsPerSec.error), round;
      }
      var downloadRateBps, n3 := DownloadPhase(world, server);
      if downloadRateBps.Failure? {
        return Failure(downloadRateBps.error), round;
      }
      round := Round(n1, n2, n3, edits);
      r := Success(TestResult(server, uploadRateBps.value, inplaceEditingOpsPerSec.value, downloadRateBps.value));
      ghost var c, source := server.config, transferFile.path;
      RoundFiles(old(world.files), source, DestFile(c.afpVolume.value, world.pid), edits);
      ghost var p1 := PhaseLog(c, UploadLog(c, source, world.pid), n1);
      ghost var p2 := PhaseLog(c, EditingLog(c, world.pid, edits), n2);
      ghost var p3 := PhaseLog(c, DownloadLog(c, source, world.pid), n3);
      AppendAssoc(old(world.log), p1, p2);
      AppendAssoc(old(world.log), p1 + p2, p3);
    }

    /** One turn of `@servers.each` in `Test#run`
        (speedtest_library.rb:117-127): the three phases on `server`, then
        the row appended to `test_results`.  When it goes through, the log
        grew by one round of the usual shape, the server's destination file
        (its `afp_destfile`) is gone and no file appeared. */
    method RunRound(world: World, server: Server) returns (r: Outcome, ghost round: Round, ghost segment: seq<Action>)
      modifies this`testResults, server`afpDestfile, world`probes, world`log, world`files, world`draws
      ensures r.Fail? ==> testResults == old(testResults)
      ensures r.Pass? ==>
        && testResults == old(testResults) + [RoundResult(server)]
        && server.config.protocol == AFP && transferFile.bytes > EDIT_SIZE
        && RoundInBounds(round, transferFile.bytes)
        && segment == RoundLog(server.config, transferFile.path, world.pid, round)
        && world.log == old(world.log) + segment
        && server.afpDestfile.Some? && server.afpDestfile.value !in world.files
        && (forall p :: p in world.files ==> p in old(world.files))
    {
      var row;
      row, round := RunServer(world, server);
      if row.Failure? {
        return Fail(row.error), round, [];
      }
      segment := RoundLog(server.config, transferFile.path, world.pid, round);
      testResults := testResults + [row.value];
      r := Pass;
    }

    /** `Test#run` (speedtest_library.rb:115-129): one round per server, in
        the order of `servers`, appending one result per server.  A raised
        error ends the run; the results appended before it stay.  When the
        run goes through, every server is an AFP server, the log is the
        rounds' one after the other, no destination file is left and no file
        appeared. */
    method Run(world: World) returns (r: Result<seq<TestResult>>, ghost rounds: seq<Round>, ghost segments: seq<seq<Action>>)
      modifies this`testResults, servers, world`probes, world`log, world`files, world`draws
      ensures |rounds| <= |servers| && testResults == old(testResults) + RoundResults(|rounds|)
      ensures r.Failure? ==> |rounds| < |servers|
      ensures r.Success? ==>
        && |rounds| == |servers| && r.value == testResults
        && (forall k :: 0 <= k < |servers| ==> servers[k].config.protocol == AFP)
        && (servers != [] ==> transferFile.bytes > EDIT_SIZE)
        && (forall k :: 0 <= k < |rounds| ==> RoundInBounds(rounds[k], transferFile.bytes))
        && |segments| == |servers| && world.log == old(world.log) + Flatten(segments)
        && (forall k :: 0 <= k < |servers| ==> RoundLogged(servers, transferFile.path, world.pid, rounds, segments, k))
        && (forall k :: 0 <= k < |servers| ==> servers[k].afpDestfile.Some? && servers[k].afpDestfile.value !in world.files)
        && (forall p :: p in world.files ==> p in old(world.files))
    {
      var i := 0;
      rounds, segments := [], [];
      while i < |servers|
        invariant 0 <= i <= |servers|
        invariant testResults == old(testResults) + RoundResults(i)
        invariant forall k :: 0 <= k < i ==> servers[k].config.protocol == AFP
        invariant i > 0 ==> transferFile.bytes > EDIT_SIZE
        invariant |rounds| == i
        invariant forall k :: 0 <= k < i ==> RoundInBounds(rounds[k], transferFile.bytes)
        invariant |segments| == i && world.log == old(world.log) + Flatten(segments)
        invariant forall k :: 0 <= k < i ==> RoundLogged(servers, transferFile.path, world.pid, rounds, segments, k)
        invariant forall k :: 0 <= k < i ==> servers[k].afpDestfile.Some? && servers[k].afpDestfile.value !in world.files
        invariant (forall p :: p in world.files ==> p in old(world.files))
      {
        label before:
        var outcome, round, segment := RunRound(world, servers[i]);
        if outcome.Fail? {
          return Failure(outcome.error), rounds, segments;
        }
        forall k | 0 <= k <= i
          ensures servers[k].afpDestfile.Some? && servers[k].afpDestfile.value !in world.files
        {
          if servers[k] != servers[i] {
            assert servers[k].afpDestfile == old@before(servers[k].afpDestfile);
          }
        }
        AppendAssoc(old(testResults), RoundResults(i), [RoundResult(servers[i])]);
        RoundLoggedSnoc(servers, transferFile.path, world.pid, i, rounds, segments, round, segment);
        FlattenSnoc(segments, segment);
        AppendAssoc(old(world.log), Flatten(segments), segment);
        rounds, segments := rounds + [round], segments + [segment];
        i := i + 1;
      }
      r := Success(testResults);
    }
  }

  /** `Test.new(params)`: the validation, then the object. */
  method NewTest(servers: Option<seq<Server>>, transferFile: Option<TestFile>) returns (r: Result<Test>)
    ensures r.Failure? <==> CheckTestParams(servers, transferFile).Fail?
    ensures r.Failure? ==> r.error == CheckTestParams(servers, transferFile).error
    ensures r.Success? ==> fresh(r.value) && r.value.testResults == []
    ensures r.Success? ==> r.value.servers == servers.value && r.value.transferFile == transferFile.value
  {
    var check := CheckTestParams(servers, transferFile);
    if check.Fail? {
      return Failure(check.error);
    }
    var test := new Test(servers.value, transferFile.value);
    r := Success(test);
  }
}
