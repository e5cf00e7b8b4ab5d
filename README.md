# glimpse, modelled in Dafny

glimpse is a command-line tool for a quick look at a big file. It is run as
`glimpse [options] filename [[start] length]`:

- on a directory, it prints the entry names;
- on a symlink, it prints the destination;
- on a regular file, it prints a window of it:
  - in text mode, `length` logical lines after skipping `start` lines;
  - in binary mode (`-b`), `length` bytes after skipping `start` bytes;
  - with `-x`, the binary window goes through a hex dumper.

This project models the two pieces of the program that have logic of their
own, and proves what they promise:

- `Parse` (module `Flags`, file `flag.dfy`) fills the global option value.
  - It is the class `Options`, and its `Parse` method works field by field as the Go code does.
  - `ParseSpec` is the reference it is proved against, with `PositionalSpec` and `FlagSpec`: the dispatch on the number of positional arguments, the first failing argument named in the error, the defaults for a non-positive hex line width, start and length, and the guard that makes a second call do nothing.
  - `strconv.ParseInt` is a parameter `parseInt`. Its answer carries the value Go returns with an error, because `Parse` stores that value in the field before it looks at the error.
- `MainProcess` (modules `Window` and `Selector`, files `window.dfy` and `main_process.dfy`) is the content selector.
  - The filesystem's answers are one value `Env`: the os.Lstat classification, the directory entries, the symlink destination and the opened reader.
  - The reader has two views. Binary mode reads it as a byte stream; text mode reads it as a sequence of ReadLine chunks tagged with `more`. Both views finish with io.EOF or with another read error.
  - The output is a `Device` that may have room for only `room` bytes. A write that goes past the room stores what fits and fails, so what a pass delivers is the longest prefix of what it would write (`Deliver`).
  - `MainProcess`, the binary-mode loops (`BinaryMode`, `CopyBytes`) and the text-mode loops (`TextMode`, `SkipLines`, `SkipLine`, `EmitLines`, `EmitLine`, `CopyLine`) are methods. They read the reader with a position index and grow the output as a `seq`. Their loop invariants tie them to the references `Selected`, `BinaryWindow` and `TextWindow(Group(chunks), ...)`.
  - The references are stated on logical lines (`Group`). The lemmas prove the promised properties about them:
    - io.EOF ends a pass successfully;
    - one terminator follows each emitted line;
    - at most `length` lines are emitted, and exactly `length` when the file has enough;
    - the hex dumper gets the plain binary window;
    - the directory check comes before the symlink check;
    - a listing splits back into the entry names.

`base.dfy` (module `Base`) holds the shared vocabulary: bytes, Go's int64, and the error values.

`ioutil.ReadDir` returns a directory's entries sorted by name. The model takes the entry list in the order the filesystem call returns it (`Env.readDir`) and lists it in that order.

## Model

| member | source | states |
|---|---|---|
| Flags.PositionalSpec | flag.go:92-125 | With no positional argument, success and the fields untouched. With more than three, a too-many-arguments error and the fields untouched. Otherwise the first argument is the input. With two, the second is the length. With three, start then length, stopping at the first one that fails to parse; that error names "start" or "length". On success start >= 0 and length > 0: a negative start becomes 0, a non-positive length becomes 1024 in binary mode and 50 otherwise, and other values are kept. |
| Flags.FlagSpec | flag.go:89-91 | The hex line width is positive afterwards: a non-positive one becomes 16, a positive one and every other flag value is kept. |
| Flags.ParseSpec | flag.go:48-126 | A call after the command line has been parsed returns success and changes nothing. A first call stores the flag values with the width normalised, then the positional arguments as PositionalSpec says. |
| Flags.OnlyFileName | flag.go:52-67 | With no flag and only a file name, a fresh option value gets that input, start 0, length 50 and hex line width 16, and every other flag keeps its registered default. |
| Flags.Options.constructor | flag.go:33-45 | The program starts with every option field at its zero value and nothing parsed. |
| Flags.Options.Parse | flag.go:48-126 | The new option value and the returned error are what ParseSpec gives for the old value. Afterwards the command line counts as parsed, and the hex line width is positive unless the call was a repeat. |
| Flags.Options.ReadFlags | flag.go:52-91 | The flag-backed fields take the given flag values, then a non-positive hex line width becomes 16. |
| Flags.Options.ReadArguments | flag.go:92-125 | The input, start and length fields and the returned error are what PositionalSpec gives for the old fields. |
| Flags.ParseTwice | flag.go:49-51 | A second call of Parse succeeds and leaves the option value as the first call left it, whatever it is given. |
| Window.Put | main_process.go:133-136 | One write to the output stores a prefix of what was asked and never goes past the room. It succeeds exactly when it stores everything. |
| Window.Deliver | main_process.go:63-64 | What reaches the output is a prefix of what a pass would write and fits the room. It is everything exactly when everything fits; otherwise it fills the room and the pass fails with a write error. |
| Window.Overflow | main_process.go:133-136 | Once a write overflows the output, the write error ends the pass, and nothing the pass would write afterwards arrives. |
| Window.BinaryWindow | main_process.go:88-108 | Binary mode writes stream[min(start, n) .. min(start + length, n)], so at most `length` bytes and nothing if the stream holds fewer than `start`. It succeeds at io.EOF and whenever the stream holds `start + length` bytes. When the stream runs short of `start + length` bytes, the reader's end decides the result: success at io.EOF, and the reader's own error otherwise, whether the pass was still skipping or already copying. That is the only way it fails. |
| Window.BinaryOverflow | main_process.go:105 | A byte write that overflows the output during the copy decides what binary mode delivers: the window's bytes up to the room, and a write error. |
| Window.BinaryMode | main_process.go:88-108 | The discarding io.CopyN and the copying io.CopyN, one byte at a time, deliver exactly BinaryWindow's bytes and error for a non-negative start and length, cut by the output's room. The end reached while discarding writes nothing. |
| Window.CopyBytes | main_process.go:105-108 | The copying io.CopyN from reader position `start` grows the output by the stream's next byte per step and delivers the binary window from there, cut by the output's room. |
| Window.TextWindow | main_process.go:109-143 | Text mode skips `skip` logical lines, then writes `take` lines, each with one terminator. If the end comes first, it writes the unfinished tail last, with no terminator. A file with fewer than `skip` lines writes nothing and reports the reader's end. Only a read error other than io.EOF makes the pass fail, and then it fails with that error. |
| Window.TextWindowCases | main_process.go:111-142 | A text pass ends one of three ways. If the file has `start + length` lines, it writes exactly lines start .. start + length, each terminated, and succeeds. If the reader's end comes during the skip, it writes nothing. If the end comes during the emit, it writes the remaining lines terminated, then the unfinished line without a terminator. Only a read error other than io.EOF makes it fail. |
| Window.GroupRender | main_process.go:123-142 | The logical lines each followed by one terminator, then the unfinished tail, are exactly the chunks in order with a terminator after each chunk that ends a line. |
| Window.SkipThenTake | main_process.go:111-142 | For every `start`: if the text has that many lines, emitting `start + length` lines from the first writes the first `start` lines, terminated, then what the pass writes when it skips `start` lines and emits `length`. Otherwise the skipping pass writes nothing and both reach the reader's end. |
| Window.GroupLineCount | main_process.go:112-120 | There is one complete logical line per chunk whose `more` is false. |
| Window.GroupConcat | main_process.go:111-121 | Chunks that stop at a line boundary leave no unfinished line, and the logical lines of the chunks after them follow their lines. |
| Window.SkippedPrefix | main_process.go:111-121 | The chunks before a line boundary are exactly the first logical lines, as many as the chunks that end a line. |
| Window.StepSkip | main_process.go:112-120 | Skipping one chunk moves the pass to the next chunk. A chunk with `more` leaves the count of lines to skip as it is; the last chunk of a line lowers it by one. |
| Window.StepEmit | main_process.go:125-141 | Emitting one chunk writes its bytes. For the last chunk of a line it also writes one terminator and lowers the count of lines to emit by one. |
| Window.EmitFromWindow | main_process.go:123-142 | Reading ReadLine answers one at a time and emitting `k` lines writes the same as emitting `k` logical lines of the remaining chunks. |
| Window.SkipFromWindow | main_process.go:111-142 | Reading ReadLine answers one at a time, skipping `s` lines and then emitting `take` writes the same as the logical-line window of the remaining chunks. |
| Window.TextMode | main_process.go:109-143 | Text mode delivers to the output exactly the logical-line window TextWindow(Group(chunks), end, start, length), cut by the output's room. A negative start or length counts as zero. |
| Window.SkipLines | main_process.go:111-121 | The skip loops write nothing. If the text has `start` lines, they stop at the line boundary just past them: the chunks read are exactly the first `start` logical lines. Otherwise the reader ends first and the pass writes nothing and succeeds at io.EOF or returns the read error. |
| Window.SkipLine | main_process.go:112-120 | One round of the skip loop reads the chunks of one logical line: either the reader ends first, or it stops just past the line's last chunk with one more line end read. |
| Window.EmitLines | main_process.go:123-142 | The emit loops deliver what emitting `length` logical lines from the reader's position writes, cut by the output's room. |
| Window.EmitLine | main_process.go:125-141 | One round of the emit loop reads exactly one logical line (the chunks it reads hold one complete line and no unfinished one, and it stops at the line boundary just past it) and grows the output by that line and one terminator. The pass finishes here with exactly what it delivers if the reader ends or a write fails. |
| Window.CopyLine | main_process.go:126-137 | The inner emit loop reads exactly one logical line, stops at the line boundary just past it, and grows the output by it, chunk by chunk as read. The pass finishes here with exactly what it delivers if the reader ends or a write fails. |
| Window.TextTerminators | main_process.go:123-142 | Text mode writes one terminator per emitted line: at most `length`, exactly `length` when the file has `start + length` lines, none when the reader ends during the skip, and min(length, lines - start) otherwise. |
| Selector.SplitJoin | main_process.go:63 | Splitting a tab-joined listing at the tabs gives the names back, in order, when no name holds a tab. |
| Selector.EntryNames | main_process.go:59-62 | The names slice has one element per entry, the i-th entry's name at index i. |
| Selector.Target | main_process.go:41-52 | The output is standard output when -o is empty, and the -o file otherwise. Only opening the -o file can fail, and then the error is the one the open reported. |
| Selector.Selected | main_process.go:35-145 | The output never receives more than it has room for, and nothing if it cannot be opened. Only binary hex mode feeds the dumper, and it then writes nothing directly for a regular file. A read-failed error carries the reader's own error: io.EOF never becomes one. |
| Selector.MainProcess | main_process.go:35-145 | The step-by-step selector's output, dumped bytes and returned error are what Selected gives for the option value and the filesystem's answers. |
| Selector.ListingRoundTrip | main_process.go:54-64 | The listing of a non-empty directory, written to an output with room for it, succeeds and ends in a terminator. Splitting the rest at the tabs gives the entry names in the order given. This holds for every name that has no tab, including names with a line terminator in them. The output holds exactly one terminator when no name has one. |
| Selector.EmptyListing | main_process.go:59-64 | An empty directory, listed to an output with room for it, gets a single terminator. |
| Selector.SymlinkDestination | main_process.go:65-71 | A symlink (that is not also a directory), written to an output with room for it, gets its destination followed by one terminator, and succeeds. The output holds exactly one terminator when the destination holds none. |
| Selector.DirectoryFirst | main_process.go:54-74 | A directory is listed whatever its symlink and other type bits say. |
| Selector.UnsupportedWritesNothing | main_process.go:72-74 | An entry that is neither directory, symlink nor regular file returns an error and writes nothing. |
| Selector.HexFeedsPlainWindow | main_process.go:97-108 | With hex mode on, the dumper receives exactly the bytes plain binary mode writes to an output with room for everything, with the same returned error, and nothing is written directly. |
| Selector.BinaryOutput | main_process.go:88-108 | Binary mode on a regular file whose reader ends at io.EOF, written to an output with room for it, writes stream[min(start, n) .. min(start + length, n)] and succeeds. |
| Selector.TextOutput | main_process.go:109-143 | Text mode on a regular file whose reader ends at io.EOF and where no chunk holds a terminator, written to an output with room for it, succeeds. It writes at most `length` terminators, and exactly `length` when the file has `start + length` lines. |

## Left out

- The flag package's own parsing of the command line is left out. Flag syntax errors exit the process from inside it. `Parse` is given the flag values it leaves behind (the registered default where no flag was given) and the positional arguments.
- The flag registration help texts, `flag.Usage` and the AGPL notice are user-interface text, and are left out.
- The syntax `strconv.ParseInt` accepts in base 0 is left out: it is a library parser, and it is a parameter of the model.
- main.go's `body` and `main` only print errors and set the exit status; they are not part of this model.
- Opening the output file is not modelled: whether it appends or truncates, and the file mode. The result of opening it is a given `Env` field. The deferred `Close` calls are left out as well.
- os.Lstat, ioutil.ReadDir and filepath.EvalSymlinks are filesystem I/O. Their answers are given inputs, and the entry list is taken in the order given.
- file.ReadFile is a foreign library, with its offset, limit, raw and decompression options. The model takes only its result: the opened reader as a byte stream and as ReadLine chunks. It does not connect the two views, because decompression and line splitting happen inside the library.
- The hex dumper is a foreign library whose output format is not visible. The model records only the bytes fed to it (`Run.dumped`). The dumper's own write errors and its flush on `Close` are not modelled.
- Selector.Selected: partial writes are reduced to an output with a byte room. A failing write stores the part that fits, and every later write fails. An output that fails once and then accepts writes again is not modelled.
- A write to standard output after its reader has closed the pipe ends a Go process with SIGPIPE instead of returning an error. This signal is not modelled: a bounded standard output fails the write and returns the error.
- Window.BinaryMode: io.CopyN reads and writes through a buffer; the model moves one byte per step. Under the byte-room model the delivered bytes do not depend on how the copy is split into writes.
- The reader's ReadLine never returns data together with an error, as bufio's contract says. The model's chunk sequence therefore ends with an end value that carries no data.
