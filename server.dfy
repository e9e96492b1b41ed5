/** `Server` (speedtest_library.rb:24-79): one remote host, mounted over AFP
    at `/Volumes/<afp_volume>` while the benchmark uses it.

    `Server.new` validates its parameters (`ConfigFrom`); `connect` checks
    the mount point before mounting (`PreMountCheck`), runs the Finder mount
    command, and decides success only by whether `filesystem` reports
    something different afterwards; on success it records the destination
    file `DestFile`.  `disconnect` is `umount` on the mount point. */
module Servers {
  import opened Errors
  import opened FilesystemProbe
  import opened Environment
  import opened Unmount

  /** Ruby symbols are modelled by their names. */
  const AFP := "afp"
  const SSH := "ssh"

  /** The options hash given to `Server.new`; a missing key is `None`. */
  datatype ServerParams = ServerParams(host: Option<string>, protocol: Option<string>, afpVolume: Option<string>)

  /** What `Server.new` stores: `@host`, `@protocol`, `@afp_volume`. */
  datatype ServerConfig = ServerConfig(host: string, protocol: string, afpVolume: Option<string>)

  /** An AFP server always has a volume: `Server.new` refuses one without. */
  type ValidConfig = c: ServerConfig | c.protocol == AFP ==> c.afpVolume.Some?
    witness ServerConfig("", SSH, None)

  /** `Server#initialize` (speedtest_library.rb:28-37). */
  function ConfigFrom(p: ServerParams): (r: Result<ValidConfig>)
    ensures r.Failure? <==> p.host.None? || (p.protocol == Some(AFP) && p.afpVolume.None?)
    ensures p.host.None? ==> r == Failure(HostRequired)
    ensures p.host.Some? && r.Failure? ==> r == Failure(AfpVolumeRequired(p.host.value))
    ensures r.Success? ==> r.value.host == p.host.value
    ensures r.Success? ==> r.value.protocol == if p.protocol.None? then SSH else p.protocol.value
    ensures r.Success? ==> (r.value.afpVolume.Some? <==> p.protocol == Some(AFP))
    ensures r.Success? && r.value.afpVolume.Some? ==> r.value.afpVolume == p.afpVolume
  {
    if p.host.None? then Failure(HostRequired)
    else
      var protocol := if p.protocol.Some? then p.protocol.value else SSH;
      if protocol == AFP then
        if p.afpVolume.None? then Failure(AfpVolumeRequired(p.host.value))
        else Success(ServerConfig(p.host.value, protocol, p.afpVolume))
      else Success(ServerConfig(p.host.value, protocol, None))
  }

  function MountPoint(volume: string): string {
    "/Volumes/" + volume
  }

  function DigitChar(d: nat): char
    requires d < 10
  {
    "0123456789"[d]
  }

  predicate IsDigit(ch: char) {
    '0' <= ch <= '9'
  }

  /** `Integer#to_s`: the decimal digits of `n`, without leading zeros. */
  function Decimal(n: nat): string
  {
    if n < 10 then [DigitChar(n)] else Decimal(n / 10) + [DigitChar(n % 10)]
  }

  /** `Decimal(n)` is a nonempty string of digits whose first digit is zero
      only for zero itself. */
  lemma {:induction false} DecimalDigits(n: nat)
    ensures |Decimal(n)| > 0 && (Decimal(n)[0] == '0' ==> n == 0 && Decimal(n) == "0")
    ensures forall i :: 0 <= i < |Decimal(n)| ==> IsDigit(Decimal(n)[i])
  {
    if n >= 10 {
      DecimalDigits(n / 10);
    }
  }

  /** The number a string of decimal digits denotes. */
  function ParseDecimal(s: string): nat
    requires forall i :: 0 <= i < |s| ==> IsDigit(s[i])
  {
    if s == [] then 0
    else
      assert IsDigit(s[|s| - 1]);
      10 * ParseDecimal(s[..|s| - 1]) + (s[|s| - 1] as int - '0' as int)
  }

  /** Printing a process id and reading it back gives the same id. */
  lemma {:induction false} DecimalRoundTrip(n: nat)
    ensures (forall i :: 0 <= i < |Decimal(n)| ==> IsDigit(Decimal(n)[i])) && ParseDecimal(Decimal(n)) == n
  {
    DecimalDigits(n);
    if n >= 10 {
      DecimalRoundTrip(n / 10);
      var s := Decimal(n);
      assert s[..|s| - 1] == Decimal(n / 10);
    }
  }

  /** `@afp_destfile`: the benchmark's file on the share, named after the
      process id `$$`; it lies directly inside the mount point. */
  function DestFile(volume: string, pid: nat): string
  {
    MountPoint(volume) + "/" + "speedtest_temporary_destfile." + Decimal(pid)
  }

  /** The destination file lies directly inside the mount point: its path
      is the mount point, a slash, and a name without slashes. */
  lemma DestFileShape(volume: string, pid: nat)
    ensures MountPoint(volume) + "/" <= DestFile(volume, pid)
    ensures '/' !in DestFile(volume, pid)[|MountPoint(volume)| + 1..]
  {
    var digits := Decimal(pid);
    var name := "speedtest_temporary_destfile." + digits;
    DecimalDigits(pid);
    assert '/' !in name by {
      assert '/' !in "speedtest_temporary_destfile.";
      assert forall i :: 0 <= i < |digits| ==> digits[i] != '/';
    }
    var r := MountPoint(volume) + "/" + name;
    assert DestFile(volume, pid) == r;
    assert r[|MountPoint(volume)| + 1..] == name;
  }

  /** Two processes benchmarking the same volume use different files. */
  lemma DestFileSeparatesProcesses(volume: string, pid1: nat, pid2: nat)
    requires DestFile(volume, pid1) == DestFile(volume, pid2)
    ensures pid1 == pid2
  {
    var prefix := MountPoint(volume) + "/" + "speedtest_temporary_destfile.";
    assert DestFile(volume, pid1) == prefix + Decimal(pid1);
    assert DestFile(volume, pid2) == prefix + Decimal(pid2);
    assert (prefix + Decimal(pid1))[|prefix|..] == Decimal(pid1);
    assert (prefix + Decimal(pid2))[|prefix|..] == Decimal(pid2);
    DecimalRoundTrip(pid1);
    DecimalRoundTrip(pid2);
  }

  /** The check `connect` makes before mounting (speedtest_library.rb:44-54):
      only a mount point that does not exist may be mounted over; an AFP
      mount, a local directory, and anything else `df` reports are each
      refused with their own error. */
  function PreMountCheck(mountPoint: string, initial: Option<string>): (r: Outcome)
    ensures r.Pass? <==> initial.None?
    ensures IsAfp(initial) ==> r == Fail(MountedAlready(mountPoint))
    ensures IsDevice(initial) && !IsAfp(initial) ==> r == Fail(ExistsNotMounted(mountPoint))
    ensures initial.Some? && !IsAfp(initial) && !IsDevice(initial) ==> r == Fail(UnhandledPattern(initial.value))
  {
    if initial.None? then Pass
    else if MatchesAtLineStart(initial.value, "afp_") then Fail(MountedAlready(mountPoint))
    else if MatchesAtLineStart(initial.value, "/dev/") then Fail(ExistsNotMounted(mountPoint))
    else Fail(UnhandledPattern(initial.value))
  }

  /** A mount point that `df` reports on one line as an AFP share is always
      refused as mounted already. */
  lemma AfpShareIsMountedAlready(mountPoint: string, device: string)
    requires '\n' !in device && "afp_" <= device
    ensures PreMountCheck(mountPoint, Some(device)) == Fail(MountedAlready(mountPoint))
  {
    SingleLineMatchIsPrefix(device, "afp_");
  }

  /** The actions of a `connect` that got as far as mounting. */
  function ConnectLog(c: ValidConfig): seq<Action>
    requires c.protocol == AFP
  {
    var volume := c.afpVolume.value;
    [Probe(MountPoint(volume)), Shell(MountVolume(c.host, volume)), Probe(MountPoint(volume))]
  }

  class Server {
    const config: ValidConfig
    var afpDestfile: Option<string>

    /** The object `Server.new` builds once `ConfigFrom` accepted the
        parameters. */
    constructor (config: ValidConfig)
      ensures this.config == config && afpDestfile == None
    {
      this.config := config;
      afpDestfile := None;
    }

    /** `Server#connect` (speedtest_library.rb:39-68). */
    method Connect(world: World) returns (r: Outcome)
      modifies this`afpDestfile, world`probes, world`log
      ensures config.protocol != AFP ==>
        r == Fail(InvalidProtocol(config.protocol)) && afpDestfile == old(afpDestfile)
        && world.probes == old(world.probes) && world.log == old(world.log)
      ensures config.protocol == AFP ==>
        var volume := config.afpVolume.value;
        var mountPoint := MountPoint(volume);
        var obs := world.Observations(mountPoint, old(world.probes));
        if PreMountCheck(mountPoint, obs(0)).Fail? then
          // refused before any mount command runs
          r == PreMountCheck(mountPoint, obs(0)) && afpDestfile == old(afpDestfile)
          && world.probes == old(world.probes) + 1 && world.log == old(world.log) + [Probe(mountPoint)]
        else
          world.probes == old(world.probes) + 2 && world.log == old(world.log) + ConnectLog(config)
          && if obs(1) == obs(0) then
               r == Fail(UnableToMount(mountPoint)) && afpDestfile == old(afpDestfile)
             else
               r == Pass && afpDestfile == Some(DestFile(volume, world.pid))
    {
      if config.protocol == AFP {
        var volume := config.afpVolume.value;
        var mountPoint := MountPoint(volume);
        var filesystemInitial := world.Filesystem(mountPoint);
        r := PreMountCheck(mountPoint, filesystemInitial);
        if r.Fail? {
          return;
        }
        world.Run(MountVolume(config.host, volume));
        var filesystemAfter := world.Filesystem(mountPoint);
        if filesystemAfter == filesystemInitial {
          r := Fail(UnableToMount(mountPoint));
          return;
        }
        afpDestfile := Some(DestFile(volume, world.pid));
      } else {
        r := Fail(InvalidProtocol(config.protocol));
      }
    }

    /** `Server#disconnect` (speedtest_library.rb:70-77): `umount` on the
        mount point of an AFP server, nothing otherwise. */
    method Disconnect(world: World) returns (r: Outcome, ghost n: nat)
      modifies world`probes, world`log
      ensures config.protocol != AFP ==>
        r == Pass && n == 0 && world.probes == old(world.probes) && world.log == old(world.log)
      ensures config.protocol == AFP ==>
        var mountPoint := MountPoint(config.afpVolume.value);
        && n <= MaxAttempts
        && world.probes == old(world.probes) + 1 + n
        && world.log == old(world.log) + UmountLog(mountPoint, n)
        && n == Attempts(world.Observations(mountPoint, old(world.probes)))
        && (r.Fail? <==> Fails(world.Observations(mountPoint, old(world.probes))))
        && (r.Fail? ==> r.error == UnableToUnmount)
    {
      if config.protocol == AFP {
        r, n := Umount(world, MountPoint(config.afpVolume.value));
      } else {
        r, n := Pass, 0;
      }
    }
  }

  /** `Server.new(params)`: the validation, then the object. */
  method NewServer(params: ServerParams) returns (r: Result<Server>)
    ensures r.Failure? <==> ConfigFrom(params).Failure?
    ensures r.Failure? ==> r.error == ConfigFrom(params).error
    ensures r.Success? ==> fresh(r.value) && r.value.config == ConfigFrom(params).value && r.value.afpDestfile == None
  {
    var config := ConfigFrom(params);
    if config.Failure? {
      return Failure(config.error);
    }
    var server := new Server(config.value);
    r := Success(server);
  }
}
