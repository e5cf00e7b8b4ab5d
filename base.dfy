/** Shared vocabulary of the model: bytes, Go's int64, and the error values
    that the content selector can return. */
module Base {

  /** A byte; Go strings and file contents are sequences of these. */
  newtype byte = x: int | 0 <= x < 256

  /** Go's int64 (and Go's int, which is 64 bits wide on the targets of the tool). */
  newtype int64 = x: int | -0x8000_0000_0000_0000 <= x < 0x8000_0000_0000_0000

  type Bytes = seq<byte>

  /** The line terminator that fmt.Fprintln appends. */
  const NL: byte := 10

  /** The separator strings.Join is given for a directory listing. */
  const TAB: byte := 9

  /** An error value handed back by the operating system or a library,
      passed on by the program without inspecting it. */
  datatype Fault = Fault(message: string)

  datatype Option<+T> = None | Some(value: T)

  /** Go's `error` return: nil (Pass) or an error. */
  datatype Outcome<+E> = Pass | Fail(error: E)

  /** The answer of a collaborator that returns a value or an error. */
  datatype Result<+T> = Ok(value: T) | Err(fault: Fault)

  /** The errors the content selector returns, tagged by the call that failed. */
  datatype ProcessError =
    | StatFailed(fault: Fault)      // os.Lstat
    | OutputFailed(fault: Fault)    // opening or creating the -o file
    | ListFailed(fault: Fault)      // ioutil.ReadDir
    | ResolveFailed(fault: Fault)   // filepath.EvalSymlinks
    | Unsupported                   // neither directory, symlink nor regular file
    | OpenFailed(fault: Fault)      // opening the reader
    | ReadFailed(fault: Fault)      // a read error other than io.EOF
    | WriteFailed                   // the output refused a write

  /** The count a signed start or length stands for: Go's loops and io.CopyN
      do nothing for a non-positive count. */
  function NonNeg(v: int64): nat
  {
    if v < 0 then 0 else v as int
  }

  function Min(a: int, b: int): int
  {
    if a <= b then a else b
  }
}
