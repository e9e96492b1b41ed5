/** `filesystem(path)`: what backs a local path, as the library reads it
    from the operating system.  The library answers `nil` when the path does
    not exist; otherwise it runs `df -m <path> | tail --lines=+2 | cut -f1 -d' '`
    and strips the output.  The two readings it takes from the operating
    system (does the path exist, what does `df` print) are a `DfReport`;
    everything the library does with them is modelled here.

    The library classifies the result with the Ruby patterns `/^afp_/` and
    `/^\/dev\//`.  In Ruby `^` anchors at the start of ANY line of the
    string, so the classification is `MatchesAtLineStart`, not a plain
    prefix test; `SingleLineMatchIsPrefix` shows the two agree on the
    one-line strings `df` normally yields. */
module FilesystemProbe {
  import opened Errors

  /** What the operating system reports for a path at one moment:
      `File::exists?(path)` and the text `df -m path` prints. */
  datatype DfReport = DfReport(pathExists: bool, output: string)

  /** The characters Ruby's `String#strip` removes from both ends. */
  predicate IsStripSpace(c: char) {
    c == '\0' || c == '\t' || c == '\n' || c == '\U{0B}' || c == '\U{0C}' || c == '\r' || c == ' '
  }

  /** Index of the first `c` in `s`, or `|s|` when there is none. */
  function IndexOf(s: string, c: char): (k: nat)
    ensures k <= |s|
    ensures forall i :: 0 <= i < k ==> s[i] != c
    ensures k < |s| ==> s[k] == c
  {
    if s == [] || s[0] == c then 0 else 1 + IndexOf(s[1..], c)
  }

  lemma IndexOfIsFirst(s: string, c: char, j: nat)
    requires j < |s| && s[j] == c
    requires forall i :: 0 <= i < j ==> s[i] != c
    ensures IndexOf(s, c) == j
  {
  }

  /** Leading whitespace removed (the first half of `String#strip`). */
  function StripLeading(s: string): (r: string)
    ensures |r| <= |s| && r == s[|s| - |r|..]
    ensures r == [] || !IsStripSpace(r[0])
    ensures forall i :: 0 <= i < |s| - |r| ==> IsStripSpace(s[i])
  {
    if s != [] && IsStripSpace(s[0]) then StripLeading(s[1..]) else s
  }

  /** Trailing whitespace removed (the second half of `String#strip`). */
  function StripTrailing(s: string): (r: string)
    ensures |r| <= |s| && r == s[..|r|]
    ensures r == [] || !IsStripSpace(r[|r| - 1])
    ensures forall i :: |r| <= i < |s| ==> IsStripSpace(s[i])
  {
    if s != [] && IsStripSpace(s[|s| - 1]) then StripTrailing(s[..|s| - 1]) else s
  }

  /** Ruby's `String#strip`. */
  function Strip(s: string): (r: string)
  {
    StripTrailing(StripLeading(s))
  }

  /** `tail --lines=+2`: everything after the first line break. */
  function AfterFirstLine(s: string): string
  {
    var k := IndexOf(s, '\n');
    if k < |s| then s[k + 1..] else []
  }

  /** `cut -f1 -d' '` on one line: the text before the first space. */
  function FirstField(line: string): (r: string)
    ensures ' ' !in r
  {
    line[..IndexOf(line, ' ')]
  }

  /** `cut -f1 -d' '` on a whole text: the first field of every line, each
      followed by a line break (a last line without one gets one too). */
  function CutFirstFields(s: string): (r: string)
    ensures ' ' !in r
    decreases |s|
  {
    if s == [] then []
    else
      var k := IndexOf(s, '\n');
      var rest := if k < |s| then CutFirstFields(s[k + 1..]) else [];
      assert ' ' !in FirstField(s[..k]) + "\n";
      FirstField(s[..k]) + "\n" + rest
  }

  /** `filesystem(path)` (speedtest_library.rb:1-4) given the operating
      system's report for the path. */
  function FilesystemOf(report: DfReport): (r: Option<string>)
    ensures r.None? <==> !report.pathExists
    ensures r.Some? ==> ' ' !in r.value
    ensures r.Some? && r.value != [] ==> !IsStripSpace(r.value[0]) && !IsStripSpace(r.value[|r.value| - 1])
  {
    if !report.pathExists then None
    else
      var fields := CutFirstFields(AfterFirstLine(report.output));
      var s := Strip(fields);
      assert s == fields[|fields| - |StripLeading(fields)|..][..|s|];
      Some(s)
  }

  lemma {:induction false} CutOneLine(device: string, rest: string)
    requires ' ' !in device && '\n' !in device && '\n' !in rest
    ensures CutFirstFields(device + " " + rest + "\n") == device + "\n"
  {
    var x := device + " " + rest + "\n";
    var k := |device| + 1 + |rest|;
    assert x[..k] == device + " " + rest;
    IndexOfIsFirst(x, '\n', k);
    IndexOfIsFirst(x[..k], ' ', |device|);
    assert x[..k][..|device|] == device;
    assert x[k + 1..] == [];
  }

  lemma AfterHeader(header: string, x: string)
    requires '\n' !in header
    ensures AfterFirstLine(header + "\n" + x) == x
  {
    var s := header + "\n" + x;
    forall i | 0 <= i < |header| ensures s[i] != '\n' {
      assert s[i] == header[i];
    }
    IndexOfIsFirst(s, '\n', |header|);
    assert s[|header| + 1..] == x;
  }

  lemma StripDeviceLine(device: string)
    requires device != [] && forall i :: 0 <= i < |device| ==> !IsStripSpace(device[i])
    ensures Strip(device + "\n") == device
  {
    var cut := device + "\n";
    assert cut[0] == device[0];
    assert StripLeading(cut) == cut;
    assert cut[..|cut| - 1] == device;
    assert StripTrailing(cut) == StripTrailing(device);
  }

  /** The usual `df -m` output, a header line and one line whose first
      field is the device, yields exactly that device. */
  lemma DeviceOfTypicalReport(header: string, device: string, rest: string)
    requires '\n' !in header && '\n' !in rest
    requires device != [] && forall i :: 0 <= i < |device| ==> !IsStripSpace(device[i])
    ensures FilesystemOf(DfReport(true, header + "\n" + device + " " + rest + "\n")) == Some(device)
  {
    var x := device + " " + rest + "\n";
    assert header + "\n" + device + " " + rest + "\n" == header + "\n" + x;
    AfterHeader(header, x);
    assert ' ' !in device && '\n' !in device by {
      forall i | 0 <= i < |device| ensures device[i] != ' ' && device[i] != '\n' {
        assert !IsStripSpace(device[i]);
      }
    }
    CutOneLine(device, rest);
    StripDeviceLine(device);
  }

  /** Ruby's `s =~ /^p/` for a literal `p`: `p` occurs at the start of `s`
      or right after one of its line breaks. */
  function MatchesAtLineStart(s: string, p: string): bool
    decreases |s|, 1
  {
    p <= s || MatchesAfterLineBreak(s, p)
  }

  /** `p` occurs right after some line break of `s`. */
  function MatchesAfterLineBreak(s: string, p: string): bool
    decreases |s|, 0
  {
    |s| > 0 && (if s[0] == '\n' then MatchesAtLineStart(s[1..], p) else MatchesAfterLineBreak(s[1..], p))
  }

  /** `i` is a position where Ruby's `^` matches in `s`. */
  ghost predicate LineStart(s: string, i: int) {
    0 <= i <= |s| && (i == 0 || s[i - 1] == '\n')
  }

  lemma {:induction false} MatchesAfterLineBreakIff(s: string, p: string)
    ensures MatchesAfterLineBreak(s, p) <==> exists i :: 0 < i <= |s| && LineStart(s, i) && p <= s[i..]
    decreases |s|
  {
    if |s| > 0 {
      var t := s[1..];
      MatchesAfterLineBreakIff(t, p);
      if MatchesAfterLineBreak(s, p) {
        if s[0] == '\n' && p <= t {
          assert LineStart(s, 1) && p <= s[1..];
        } else {
          assert MatchesAtLineStart(t, p) == (p <= t || MatchesAfterLineBreak(t, p));
          assert MatchesAfterLineBreak(t, p);
          var j :| 0 < j <= |t| && LineStart(t, j) && p <= t[j..];
          assert t[j..] == s[j + 1..];
          assert LineStart(s, j + 1);
        }
      }
      if exists i :: 0 < i <= |s| && LineStart(s, i) && p <= s[i..] {
        var i :| 0 < i <= |s| && LineStart(s, i) && p <= s[i..];
        if i == 1 {
          assert s[0] == '\n' && p <= t;
        } else {
          assert t[i - 1..] == s[i..];
          assert LineStart(t, i - 1);
          assert MatchesAfterLineBreak(t, p);
          if s[0] == '\n' {
            assert MatchesAtLineStart(t, p);
          }
        }
      }
    }
  }

  /** The recursive matcher agrees with the meaning of `^` in Ruby: some
      line of `s` starts with `p`. */
  lemma MatchesAtLineStartIff(s: string, p: string)
    ensures MatchesAtLineStart(s, p) <==> exists i :: LineStart(s, i) && p <= s[i..]
  {
    MatchesAfterLineBreakIff(s, p);
    if p <= s {
      assert LineStart(s, 0) && p <= s[0..];
    }
    if exists i :: LineStart(s, i) && p <= s[i..] {
      var i :| LineStart(s, i) && p <= s[i..];
      if i == 0 {
        assert s[0..] == s;
      }
    }
  }

  /** On a string without line breaks the match is a prefix test. */
  lemma {:induction false} SingleLineMatchIsPrefix(s: string, p: string)
    requires '\n' !in s
    ensures MatchesAtLineStart(s, p) <==> p <= s
  {
    MatchesAtLineStartIff(s, p);
    if MatchesAtLineStart(s, p) {
      var i :| LineStart(s, i) && p <= s[i..];
      assert forall j :: 0 <= j < |s| ==> s[j] != '\n';
      assert i == 0;
      assert s[0..] == s;
    }
  }

  /** The library's test `filesystem =~ /^afp_/`: the path is backed by an
      AFP share (`nil` never matches). */
  predicate IsAfp(fs: Option<string>) {
    fs.Some? && MatchesAtLineStart(fs.value, "afp_")
  }

  /** The library's test `filesystem =~ /^\/dev\//`: the path is on a local
      device. */
  predicate IsDevice(fs: Option<string>) {
    fs.Some? && MatchesAtLineStart(fs.value, "/dev/")
  }
}
