/** The command-line front end: the global option value and `Parse`, which
    fills it from the flags and the positional arguments `filename [[start] length]`. */
module Flags {
  import opened Base

  /** The three fields of the option value that the positional arguments set. */
  datatype Positional = Positional(input: string, start: int64, length: int64)

  /** The eight fields of the option value that flags set: what the flag
      registrations and the flag package's parse leave there (the
      command-line value where one was given, the registered default otherwise). */
  datatype FlagValues = FlagValues(
    output: string,       // -o
    append: bool,         // -a
    binary: bool,         // -b
    hex: bool,            // -x
    hexLineWidth: int64,  // -w
    raw: bool,            // -r
    offset: int64,        // -s
    limit: int64)         // -m

  /** The global option value, as a value. */
  datatype Config = Config(pos: Positional, flags: FlagValues)

  /** The zero value the global option value holds when the program starts. */
  const Zero := Config(Positional("", 0, 0), FlagValues("", false, false, false, 0, false, 0, 0))

  /** The defaults the flags are registered with. */
  const Registered := FlagValues("", false, false, false, 16, false, 0, 0)

  const DefaultHexLineWidth: int64 := 16
  const DefaultBinaryLength: int64 := 1024
  const DefaultTextLength: int64 := 50

  /** The answer of strconv.ParseInt(s, 0, 64). Go returns a value together
      with its error (0 for bad syntax, the nearest bound when out of range),
      and Parse stores that value in the field before it looks at the error. */
  datatype IntParse = IntOk(value: int64) | IntErr(value: int64, reason: string)

  datatype ArgError =
    | TooManyArguments(count: nat)
    | InvalidArgument(name: string, reason: string)

  /** An option value and the error Parse returns with it. */
  datatype Parsed = Parsed(config: Config, outcome: Outcome<ArgError>)

  /** Positional fields and the error Parse returns with them. */
  datatype PosParsed = PosParsed(pos: Positional, outcome: Outcome<ArgError>)

  /** The start and length defaults, applied once the positional arguments are in. */
  function WithDefaults(p: Positional, binary: bool): Positional
  {
    p.(start := if p.start < 0 then 0 else p.start,
       length := if p.length > 0 then p.length
                 else if binary then DefaultBinaryLength else DefaultTextLength)
  }

  /** The start value Parse has stored once the positional arguments are read
      (before the defaults), for 1 to 3 arguments. */
  function StoredStart(p: Positional, args: seq<string>, parseInt: string -> IntParse): int64
    requires 1 <= |args| <= 3
  {
    if |args| == 3 then parseInt(args[1]).value else p.start
  }

  /** The length value Parse has stored once the positional arguments are read. */
  function StoredLength(p: Positional, args: seq<string>, parseInt: string -> IntParse): int64
    requires 1 <= |args| <= 3
  {
    if |args| == 1 then p.length else parseInt(args[|args| - 1]).value
  }

  /** What Parse does with the positional arguments, given the positional
      fields `p` before the call and whether binary mode is on. */
  function PositionalSpec(p: Positional, binary: bool, args: seq<string>,
                          parseInt: string -> IntParse): (r: PosParsed)
    // No positional argument: success, and the fields are left as they were.
    ensures |args| == 0 ==> r == PosParsed(p, Pass)
    // More than three: an error, and the fields are left as they were.
    ensures |args| > 3 ==> r == PosParsed(p, Fail(TooManyArguments(|args|)))
    // One to three: the first is the input; one alone always succeeds.
    ensures 1 <= |args| <= 3 ==> r.pos.input == args[0]
    ensures |args| == 1 ==> r.outcome == Pass
    // Two: the second is the length; a parse failure names "length".
    ensures |args| == 2 ==>
      && (r.outcome.Fail? <==> parseInt(args[1]).IntErr?)
      && (r.outcome.Fail? ==>
            r.outcome.error == InvalidArgument("length", parseInt(args[1]).reason) &&
            r.pos.start == p.start && r.pos.length == parseInt(args[1]).value)
    // Three: start then length, stopping at the first one that fails.
    ensures |args| == 3 ==>
      && (r.outcome.Fail? <==> parseInt(args[1]).IntErr? || parseInt(args[2]).IntErr?)
      && (parseInt(args[1]).IntErr? ==>
            r.outcome.error == InvalidArgument("start", parseInt(args[1]).reason) &&
            r.pos.start == parseInt(args[1]).value && r.pos.length == p.length)
      && (parseInt(args[1]).IntOk? && parseInt(args[2]).IntErr? ==>
            r.outcome.error == InvalidArgument("length", parseInt(args[2]).reason) &&
            r.pos.start == parseInt(args[1]).value &&
            r.pos.length == parseInt(args[2]).value)
    // On success with one to three: start and length are normalised.
    ensures 1 <= |args| <= 3 && r.outcome == Pass ==>
      var s := StoredStart(p, args, parseInt);
      var l := StoredLength(p, args, parseInt);
      && r.pos.start >= 0 && r.pos.length > 0
      && (s >= 0 ==> r.pos.start == s)
      && (s < 0 ==> r.pos.start == 0)
      && (l > 0 ==> r.pos.length == l)
      && (l <= 0 && binary ==> r.pos.length == DefaultBinaryLength)
      && (l <= 0 && !binary ==> r.pos.length == DefaultTextLength)
  {
    var n := |args|;
    if n == 0 then PosParsed(p, Pass)
    else if n > 3 then PosParsed(p, Fail(TooManyArguments(n)))
    else
      var p1 := p.(input := args[0]);
      if n == 2 then
        var l := parseInt(args[1]);
        var p2 := p1.(length := l.value);
        if l.IntErr? then PosParsed(p2, Fail(InvalidArgument("length", l.reason)))
        else PosParsed(WithDefaults(p2, binary), Pass)
      else if n == 3 then
        var s := parseInt(args[1]);
        var p2 := p1.(start := s.value);
        if s.IntErr? then PosParsed(p2, Fail(InvalidArgument("start", s.reason)))
        else
          var l := parseInt(args[2]);
          var p3 := p2.(length := l.value);
          if l.IntErr? then PosParsed(p3, Fail(InvalidArgument("length", l.reason)))
          else PosParsed(WithDefaults(p3, binary), Pass)
      else PosParsed(WithDefaults(p1, binary), Pass)
  }

  /** What Parse does to the flag-backed fields: they take the flag values,
      with a non-positive hex line width replaced by the default. */
  function FlagSpec(f: FlagValues): (r: FlagValues)
    ensures r.hexLineWidth > 0
    ensures f.hexLineWidth > 0 ==> r == f
    ensures f.hexLineWidth <= 0 ==> r == f.(hexLineWidth := DefaultHexLineWidth)
  {
    if f.hexLineWidth <= 0 then f.(hexLineWidth := DefaultHexLineWidth) else f
  }

  /** What one call of Parse does to the option value `c`, given whether the
      flag package has parsed the command line already, the flag values, the
      positional arguments and the integer parser. */
  function ParseSpec(parsed: bool, c: Config, flags: FlagValues, args: seq<string>,
                     parseInt: string -> IntParse): (r: Parsed)
    // A second call changes nothing and succeeds.
    ensures parsed ==> r == Parsed(c, Pass)
    // A first call: the flags, with the width normalised, and the positional arguments.
    ensures !parsed ==> r.config.flags == FlagSpec(flags) && r.config.flags.hexLineWidth > 0
    ensures !parsed ==>
      PosParsed(r.config.pos, r.outcome) == PositionalSpec(c.pos, flags.binary, args, parseInt)
  {
    if parsed then Parsed(c, Pass)
    else
      var f := FlagSpec(flags);
      var p := PositionalSpec(c.pos, f.binary, args, parseInt);
      Parsed(Config(p.pos, f), p.outcome)
  }

  /** With no flag given and only a file name, a fresh program views 50 lines
      from the first, in text mode, with a hex line width of 16. */
  lemma OnlyFileName(name: string, parseInt: string -> IntParse)
    ensures ParseSpec(false, Zero, Registered, [name], parseInt)
         == Parsed(Config(Positional(name, 0, 50), Registered), Pass)
  {
  }

  /** The global option value. `parsed` stands for the flag package's own
      state (flag.Parsed()): whether the command line has been parsed. */
  class Options {
    var input: string
    var start: int64
    var length: int64
    var output: string
    var append: bool
    var binary: bool
    var hex: bool
    var hexLineWidth: int64
    var raw: bool
    var offset: int64
    var limit: int64
    var parsed: bool

    /** The state at program start: every field zero, nothing parsed. */
    constructor ()
      ensures Snapshot() == Zero && !parsed
    {
      input, start, length, output, append := "", 0, 0, "", false;
      binary, hex, hexLineWidth, raw, offset, limit := false, false, 0, false, 0, 0;
      parsed := false;
    }

    function Snapshot(): Config
      reads this
    {
      Config(Pos(), Flags())
    }

    /** Parse the user's input: the flags, then the positional arguments,
        then the defaults for non-positive values. */
    method Parse(flags: FlagValues, args: seq<string>, parseInt: string -> IntParse)
      returns (err: Outcome<ArgError>)
      modifies this
      ensures parsed
      ensures Parsed(Snapshot(), err) == ParseSpec(old(parsed), old(Snapshot()), flags, args, parseInt)
      ensures hexLineWidth > 0 || old(parsed)
    {
      if parsed {
        return Pass;
      }
      ReadFlags(flags);
      parsed := true;
      err := ReadArguments(args, parseInt);
    }

    function Flags(): FlagValues
      reads this
    {
      FlagValues(output, append, binary, hex, hexLineWidth, raw, offset, limit)
    }

    /** The flag half of Parse: registering each flag stores its default,
        parsing stores the given values, then the hex line width default. */
    method ReadFlags(flags: FlagValues)
      modifies this`output, this`append, this`binary, this`hex,
               this`hexLineWidth, this`raw, this`offset, this`limit
      ensures Flags() == FlagSpec(flags)
    {
      output, append, binary, hex := flags.output, flags.append, flags.binary, flags.hex;
      hexLineWidth, raw, offset, limit := flags.hexLineWidth, flags.raw, flags.offset, flags.limit;
      if hexLineWidth <= 0 {
        hexLineWidth := DefaultHexLineWidth;
      }
    }

    function Pos(): Positional
      reads this
    {
      Positional(input, start, length)
    }

    /** The positional-argument half of Parse: the dispatch on their number,
        then the start and length defaults. */
    method ReadArguments(args: seq<string>, parseInt: string -> IntParse)
      returns (err: Outcome<ArgError>)
      modifies this`input, this`start, this`length
      ensures PosParsed(Pos(), err) == PositionalSpec(old(Pos()), binary, args, parseInt)
    {
      var n := |args|;
      if n == 0 {
        return Pass;
      } else if n > 3 {
        return Fail(TooManyArguments(n));
      }
      input := args[0];
      if n == 2 {
        var l := parseInt(args[1]);
        length := l.value;
        if l.IntErr? {
          return Fail(InvalidArgument("length", l.reason));
        }
      } else if n == 3 {
        var s := parseInt(args[1]);
        start := s.value;
        if s.IntErr? {
          return Fail(InvalidArgument("start", s.reason));
        }
        var l := parseInt(args[2]);
        length := l.value;
        if l.IntErr? {
          return Fail(InvalidArgument("length", l.reason));
        }
      }
      if start < 0 {
        start := 0;
      }
      if length <= 0 {
        if binary {
          length := DefaultBinaryLength;
        } else {
          length := DefaultTextLength;
        }
      }
      return Pass;
    }
  }

  /** Calling Parse a second time leaves the option value as the first call
      left it and succeeds, whatever the second call is given. */
  method ParseTwice(o: Options, flags: FlagValues, args: seq<string>, parseInt: string -> IntParse,
                    flags2: FlagValues, args2: seq<string>)
    returns (afterFirst: Config, second: Outcome<ArgError>)
    modifies o
    ensures o.Snapshot() == afterFirst && second == Pass
  {
    var _ := o.Parse(flags, args, parseInt);
    afterFirst := o.Snapshot();
    second := o.Parse(flags2, args2, parseInt);
  }
}
