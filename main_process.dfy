/** The content selector: classify the input, then write a directory
    listing, a symlink's destination, or a window of a regular file. */
module Selector {
  import opened Base
  import opened Window
  import Flags

  /** The file-type bits of the os.Lstat answer that the selector looks at.
      `special` stands for every other type bit (named pipe, socket, device, ...). */
  datatype Mode = Mode(dir: bool, symlink: bool, special: bool)

  /** os.FileMode.IsRegular: no type bit is set. */
  predicate IsRegular(m: Mode)
  {
    !m.dir && !m.symlink && !m.special
  }

  /** One entry of a directory listing. */
  datatype DirEntry = DirEntry(name: Bytes)

  /** The reader over a regular file, as the two modes see it: binary mode
      reads the bytes of `stream`, text mode the ReadLine answers `chunks`;
      after the last of them the reader reports `end`. */
  datatype Reader = Reader(stream: Bytes, chunks: seq<Chunk>, end: End)

  /** What the world answers for the input path and the output: os.Lstat,
      standard output, opening the -o file (appending or truncating),
      ioutil.ReadDir, filepath.EvalSymlinks and opening the reader. */
  datatype Env = Env(
    lstat: Result<Mode>,
    stdout: Device,
    openOutput: Result<Device>,
    readDir: Result<seq<DirEntry>>,
    evalSymlinks: Result<Bytes>,
    readFile: Result<Reader>)

  /** What one run leaves behind: the bytes written to the output, the bytes
      fed to the hex dumper, and the error MainProcess returns. */
  datatype Run = Run(out: Bytes, dumped: Bytes, outcome: Outcome<ProcessError>)

  function Plain(w: Written): Run
  {
    Run(w.bytes, [], w.outcome)
  }

  function Failed(e: ProcessError): Run
  {
    Run([], [], Fail(e))
  }

  // ---------------------------------------------------------------------
  // The directory listing

  /** strings.Join with a one-byte separator. */
  function Join(parts: seq<Bytes>, sep: byte): Bytes
  {
    if parts == [] then []
    else if |parts| == 1 then parts[0]
    else parts[0] + [sep] + Join(parts[1..], sep)
  }

  /** strings.Split with a one-byte separator: the fields between separators. */
  function Split(s: Bytes, sep: byte): (r: seq<Bytes>)
    ensures |r| >= 1
  {
    if s == [] then [[]]
    else
      var rest := Split(s[1..], sep);
      if s[0] == sep then [[]] + rest
      else [[s[0]] + rest[0]] + rest[1..]
  }

  lemma {:induction false} SplitPlain(p: Bytes, sep: byte)
    requires sep !in p
    ensures Split(p, sep) == [p]
  {
    if p != [] {
      SplitPlain(p[1..], sep);
      assert [p[0]] + p[1..] == p;
    }
  }

  lemma {:induction false} SplitField(p: Bytes, sep: byte, s: Bytes)
    requires sep !in p
    ensures Split(p + [sep] + s, sep) == [p] + Split(s, sep)
  {
    if p == [] {
      assert p + [sep] + s == [sep] + s;
      assert ([sep] + s)[1..] == s;
    } else {
      assert (p + [sep] + s)[1..] == p[1..] + [sep] + s;
      SplitField(p[1..], sep, s);
      assert [p[0]] + p[1..] == p;
    }
  }

  predicate NoneHolds(parts: seq<Bytes>, x: byte)
  {
    forall k :: 0 <= k < |parts| ==> x !in parts[k]
  }

  /** Splitting a join at the separator gives the parts back, when none of
      them holds the separator and there is at least one. */
  lemma {:induction false} SplitJoin(parts: seq<Bytes>, sep: byte)
    requires parts != [] && NoneHolds(parts, sep)
    ensures Split(Join(parts, sep), sep) == parts
  {
    if |parts| == 1 {
      SplitPlain(parts[0], sep);
    } else {
      assert NoneHolds(parts[1..], sep) by {
        forall k | 0 <= k < |parts[1..]| ensures sep !in parts[1..][k] {
          assert parts[1..][k] == parts[k + 1];
        }
      }
      SplitJoin(parts[1..], sep);
      SplitField(parts[0], sep, Join(parts[1..], sep));
      assert [parts[0]] + parts[1..] == parts;
    }
  }

  /** A byte that is neither the separator nor in any part is not in the join. */
  lemma {:induction false} JoinAbsent(parts: seq<Bytes>, sep: byte, x: byte)
    requires x != sep && NoneHolds(parts, x)
    ensures x !in Join(parts, sep)
  {
    if |parts| > 1 {
      assert NoneHolds(parts[1..], x) by {
        forall k | 0 <= k < |parts[1..]| ensures x !in parts[1..][k] {
          assert parts[1..][k] == parts[k + 1];
        }
      }
      JoinAbsent(parts[1..], sep, x);
      assert x !in parts[0];
    }
  }

  /** The names of the entries, in the order given. */
  function Names(files: seq<DirEntry>): seq<Bytes>
  {
    seq(|files|, k requires 0 <= k < |files| => files[k].name)
  }

  /** Fill a slice with the entry names, one index at a time. */
  method EntryNames(files: seq<DirEntry>) returns (names: seq<Bytes>)
    ensures |names| == |files|
    ensures forall k :: 0 <= k < |files| ==> names[k] == files[k].name
  {
    var a := new Bytes[|files|];
    for i := 0 to |files|
      invariant forall k :: 0 <= k < i ==> a[k] == files[k].name
    {
      a[i] := files[i].name;
    }
    names := a[..];
  }

  // ---------------------------------------------------------------------
  // The selector

  /** The output: standard output, or the -o file once it is opened. Only
      opening the -o file can fail; without -o the answer is standard output. */
  function Target(cfg: Flags.Config, env: Env): (r: Result<Device>)
    ensures cfg.flags.output == "" ==> r == Ok(env.stdout)
    ensures r.Err? ==> cfg.flags.output != "" && r == env.openOutput
  {
    if cfg.flags.output == "" then Ok(env.stdout) else env.openOutput
  }

  /** What MainProcess does for the option value `cfg` in the world `env`:
      the directory check first, then the symlink check, then the regular
      file check; a regular file is read in binary mode (through the hex
      dumper when asked) or in text mode. */
  function Selected(cfg: Flags.Config, env: Env): (run: Run)
    // The output never receives more than it has room for, and nothing when it does not open.
    ensures Target(cfg, env).Ok? ==> Fits(run.out, Target(cfg, env).value)
    ensures Target(cfg, env).Err? ==> run.out == []
    // Only binary hex mode feeds the dumper; a regular file then writes nothing directly.
    ensures run.dumped != [] ==> cfg.flags.binary && cfg.flags.hex
    ensures cfg.flags.binary && cfg.flags.hex && run.out != [] ==>
      env.lstat.Ok? && !IsRegular(env.lstat.value)
    // The reader's io.EOF is never an error; only another read error is passed on.
    ensures forall f :: run.outcome == Fail(ReadFailed(f)) ==>
      env.readFile.Ok? && env.readFile.value.end == ReadError(f)
  {
    match env.lstat
    case Err(f) => Failed(StatFailed(f))
    case Ok(mode) =>
      match Target(cfg, env)
      case Err(f) => Failed(OutputFailed(f))
      case Ok(dev) =>
        if mode.dir then
          match env.readDir
          case Err(f) => Failed(ListFailed(f))
          case Ok(files) => Plain(Deliver(Written(Join(Names(files), TAB) + [NL], Pass), dev))
        else if mode.symlink then
          match env.evalSymlinks
          case Err(f) => Failed(ResolveFailed(f))
          case Ok(dest) => Plain(Deliver(Written(dest + [NL], Pass), dev))
        else if !IsRegular(mode) then Failed(Unsupported)
        else
          match env.readFile
          case Err(f) => Failed(OpenFailed(f))
          case Ok(reader) =>
            var start, length := NonNeg(cfg.pos.start), NonNeg(cfg.pos.length);
            if cfg.flags.binary then
              var w := BinaryWindow(reader.stream, reader.end, start, length);
              if cfg.flags.hex then Run([], w.bytes, w.outcome) else Plain(Deliver(w, dev))
            else Plain(Deliver(TextWindow(Group(reader.chunks), reader.end, start, length), dev))
  }

  /** The content selector, step by step. */
  method MainProcess(cfg: Flags.Config, env: Env) returns (run: Run)
    ensures run == Selected(cfg, env)
  {
    if env.lstat.Err? {
      return Failed(StatFailed(env.lstat.fault));
    }
    var mode := env.lstat.value;
    var dev := env.stdout;
    if cfg.flags.output != "" {
      if env.openOutput.Err? {
        return Failed(OutputFailed(env.openOutput.fault));
      }
      dev := env.openOutput.value;
    }

    if mode.dir {
      if env.readDir.Err? {
        return Failed(ListFailed(env.readDir.fault));
      }
      var names := EntryNames(env.readDir.value);
      assert names == Names(env.readDir.value);
      return Plain(Deliver(Written(Join(names, TAB) + [NL], Pass), dev));
    } else if mode.symlink {
      if env.evalSymlinks.Err? {
        return Failed(ResolveFailed(env.evalSymlinks.fault));
      }
      return Plain(Deliver(Written(env.evalSymlinks.value + [NL], Pass), dev));
    } else if !IsRegular(mode) {
      return Failed(Unsupported);
    }

    if env.readFile.Err? {
      return Failed(OpenFailed(env.readFile.fault));
    }
    var reader := env.readFile.value;
    if cfg.flags.binary {
      if cfg.flags.hex {
        // The dumper takes every byte it is given.
        var w := BinaryMode(reader.stream, reader.end, cfg.pos.start, cfg.pos.length, Unbounded);
        return Run([], w.bytes, w.outcome);
      }
      var w := BinaryMode(reader.stream, reader.end, cfg.pos.start, cfg.pos.length, dev);
      return Plain(w);
    }
    var w := TextMode(reader.chunks, reader.end, cfg.pos.start, cfg.pos.length, dev);
    return Plain(w);
  }

  // ---------------------------------------------------------------------
  // Properties of the selector

  /** The output a directory listing gets: the names in the order given,
      separated by single tabs, then exactly one line terminator. */
  lemma ListingRoundTrip(cfg: Flags.Config, env: Env, m: Mode, files: seq<DirEntry>)
    requires env.lstat == Ok(m) && m.dir && Target(cfg, env) == Ok(Unbounded)
    requires env.readDir == Ok(files) && files != []
    requires NoneHolds(Names(files), TAB)
    ensures var run := Selected(cfg, env);
      && run.outcome == Pass && run.dumped == []
      && |run.out| > 0 && run.out[|run.out| - 1] == NL
      && Split(run.out[..|run.out| - 1], TAB) == Names(files)
      && (NoneHolds(Names(files), NL) ==> Count(NL, run.out) == 1)
  {
    var body := Join(Names(files), TAB);
    var out := body + [NL];
    assert out[..|out| - 1] == body;
    SplitJoin(Names(files), TAB);
    if NoneHolds(Names(files), NL) {
      JoinAbsent(Names(files), TAB, NL);
      CountAbsent(NL, body);
      CountAppend(NL, body, [NL]);
    }
  }

  /** An empty directory gets one line terminator and nothing else. */
  lemma EmptyListing(cfg: Flags.Config, env: Env, m: Mode)
    requires env.lstat == Ok(m) && m.dir && Target(cfg, env) == Ok(Unbounded)
    requires env.readDir == Ok([])
    ensures Selected(cfg, env) == Run([NL], [], Pass)
  {
    assert Names([]) == [];
  }

  /** The output a symlink gets: its destination and exactly one line terminator. */
  lemma SymlinkDestination(cfg: Flags.Config, env: Env, m: Mode, dest: Bytes)
    requires env.lstat == Ok(m) && !m.dir && m.symlink && Target(cfg, env) == Ok(Unbounded)
    requires env.evalSymlinks == Ok(dest)
    ensures var run := Selected(cfg, env);
      && run == Run(dest + [NL], [], Pass)
      && (NL !in dest ==> Count(NL, run.out) == 1)
  {
    if NL !in dest {
      CountAbsent(NL, dest);
      CountAppend(NL, dest, [NL]);
    }
  }

  /** The directory check comes first: a directory is listed whatever its
      other type bits say. */
  lemma DirectoryFirst(cfg: Flags.Config, env: Env, symlink: bool, special: bool)
    requires env.lstat.Ok? && env.lstat.value.dir
    ensures Selected(cfg, env) == Selected(cfg, env.(lstat := Ok(Mode(true, symlink, special))))
  {
  }

  /** An entry that is neither directory, symlink nor regular file is an
      error, and nothing is written. */
  lemma UnsupportedWritesNothing(cfg: Flags.Config, env: Env)
    requires env.lstat == Ok(Mode(false, false, true)) && Target(cfg, env).Ok?
    ensures Selected(cfg, env) == Run([], [], Fail(Unsupported))
  {
  }

  /** The hex dumper is fed exactly the bytes that plain binary mode would
      write to an output with room for everything. */
  lemma HexFeedsPlainWindow(cfg: Flags.Config, env: Env, m: Mode)
    requires cfg.flags.binary && env.lstat == Ok(m) && IsRegular(m) && Target(cfg, env).Ok?
    ensures var hexRun := Selected(cfg.(flags := cfg.flags.(hex := true)), env);
      var plainRun := Selected(cfg.(flags := cfg.flags.(hex := false)),
                               env.(stdout := Unbounded, openOutput := Ok(Unbounded)));
      hexRun.dumped == plainRun.out && hexRun.outcome == plainRun.outcome && hexRun.out == []
  {
  }

  /** Binary mode on a regular file writes the part of the stream between
      `start` and `start + length`, cut by the stream's end, and an io.EOF
      there is success. */
  lemma BinaryOutput(cfg: Flags.Config, env: Env, m: Mode, stream: Bytes, chunks: seq<Chunk>)
    requires cfg.flags.binary && !cfg.flags.hex
    requires env.lstat == Ok(m) && IsRegular(m) && Target(cfg, env) == Ok(Unbounded)
    requires env.readFile == Ok(Reader(stream, chunks, EndOfFile))
    ensures var s, l := NonNeg(cfg.pos.start), NonNeg(cfg.pos.length);
      Selected(cfg, env) == Run(stream[Min(s, |stream|)..Min(s + l, |stream|)], [], Pass)
  {
  }

  /** Text mode on a regular file with an output that has room: without a
      read error the pass succeeds, with at most `length` line terminators,
      and exactly `length` when the file has enough lines. */
  lemma TextOutput(cfg: Flags.Config, env: Env, m: Mode, stream: Bytes, chunks: seq<Chunk>)
    requires !cfg.flags.binary && NoTerminator(chunks)
    requires env.lstat == Ok(m) && IsRegular(m) && Target(cfg, env) == Ok(Unbounded)
    requires env.readFile == Ok(Reader(stream, chunks, EndOfFile))
    ensures var s, l := NonNeg(cfg.pos.start), NonNeg(cfg.pos.length);
      var run := Selected(cfg, env);
      && run.outcome == Pass
      && Count(NL, run.out) <= l
      && (s + l <= |Group(chunks).lines| ==> Count(NL, run.out) == l)
  {
    var s, l := NonNeg(cfg.pos.start), NonNeg(cfg.pos.length);
    TextWindowCases(Group(chunks), EndOfFile, s, l);
    TextTerminators(chunks, EndOfFile, s, l);
  }
}
