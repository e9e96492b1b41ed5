/** `TestFile` (speedtest_library.rb:81-103): the payload every server is
    benchmarked with, a temporary file of `bytes` random bytes. */
module TestFiles {
  import opened Errors
  import opened Environment

  const RANDOM := "random"

  /** The options hash given to `TestFile.new`; a missing key is `None`. */
  datatype TestFileParams = TestFileParams(bytes: Option<int>, fileType: Option<string>, basename: Option<string>)

  /** The two `raise ... unless` lines of `TestFile#initialize`
      (speedtest_library.rb:86-87), which run before anything else. */
  function CheckTestFileParams(p: TestFileParams): (r: Outcome)
    ensures r.Pass? <==> p.bytes.Some? && p.basename.Some?
    ensures p.bytes.None? ==> r == Fail(BytesRequired)
    ensures p.bytes.Some? && p.basename.None? ==> r == Fail(BasenameRequired)
  {
    if p.bytes.None? then Fail(BytesRequired)
    else if p.basename.None? then Fail(BasenameRequired)
    else Pass
  }

  class TestFile {
    const bytes: int
    const fileType: string
    const basename: string
    /** The path `Tempfile` chose for the file. */
    const path: string

    constructor (bytes: int, fileType: string, basename: string, path: string)
      ensures this.bytes == bytes && this.fileType == fileType
      ensures this.basename == basename && this.path == path
    {
      this.bytes := bytes;
      this.fileType := fileType;
      this.basename := basename;
      this.path := path;
    }
  }

  /** `TestFile.new(params)` (speedtest_library.rb:85-102).  `tempPath` is
      the path `Tempfile` picks for the basename.  The temporary file is
      created before the type is looked at, so a refused type or a
      negative size leaves an empty file behind. */
  method NewTestFile(world: World, params: TestFileParams, tempPath: string) returns (r: Result<TestFile>)
    modifies world`files, world`log, world`draws
    ensures CheckTestFileParams(params).Fail? ==>
      r == Failure(CheckTestFileParams(params).error)
      && world.files == old(world.files) && world.log == old(world.log) && world.draws == old(world.draws)
    ensures CheckTestFileParams(params).Pass? ==>
      var bytes := params.bytes.value;
      var fileType := if params.fileType.Some? then params.fileType.value else RANDOM;
      if fileType != RANDOM || bytes < 0 then
        r == Failure(if fileType != RANDOM then InvalidTestFileType(fileType) else NegativeArraySize(bytes))
        && world.files == old(world.files)[tempPath := []]
        && world.log == old(world.log) + [CreateTempfile(tempPath)]
        && world.draws == old(world.draws)
      else
        var content := DrawnBytes(world.rng, old(world.draws), bytes);
        && r.Success? && fresh(r.value)
        && r.value.bytes == bytes && r.value.fileType == RANDOM
        && r.value.basename == params.basename.value && r.value.path == tempPath
        && world.files == old(world.files)[tempPath := content]
        && |world.files[tempPath]| == bytes
        && world.log == old(world.log) + [CreateTempfile(tempPath), Write(tempPath, content)]
        && world.draws == old(world.draws) + bytes
  {
    var check := CheckTestFileParams(params);
    if check.Fail? {
      return Failure(check.error);
    }
    var bytes := params.bytes.value;
    var fileType := if params.fileType.Some? then params.fileType.value else RANDOM;
    var basename := params.basename.value;
    world.CreateTemporary(tempPath);
    if fileType == RANDOM {
      if bytes < 0 {
        return Failure(NegativeArraySize(bytes));
      }
      var content := RandomBytes(world, bytes);
      world.WriteFile(tempPath, 0, content);
      assert Overwrite([], 0, content) == content;
      var file := new TestFile(bytes, fileType, basename, tempPath);
      r := Success(file);
    } else {
      r := Failure(InvalidTestFileType(fileType));
    }
  }
}
