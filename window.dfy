/** The windowed pass over a regular file: what the output receives in
    binary mode (skip `start` bytes, copy `length`) and in text mode (skip
    `start` logical lines, emit `length`), with the reader's end and the
    output's write failures. */
module Window {
  import opened Base

  /** How the reader ends after its last byte or chunk: io.EOF, or another error. */
  datatype End = EndOfFile | ReadError(cause: Fault)

  /** What reaching the end means to the pass: io.EOF is success. */
  function AtEnd(end: End): Outcome<ProcessError>
  {
    match end
    case EndOfFile => Pass
    case ReadError(f) => Fail(ReadFailed(f))
  }

  /** The bytes a pass writes and the error it returns. */
  datatype Written = Written(bytes: Bytes, outcome: Outcome<ProcessError>)

  function Then(prefix: Bytes, w: Written): Written
  {
    Written(prefix + w.bytes, w.outcome)
  }

  lemma ThenThen(a: Bytes, b: Bytes, w: Written)
    ensures Then(a, Then(b, w)) == Then(a + b, w)
  {
    assert a + (b + w.bytes) == (a + b) + w.bytes;
  }

  lemma Grow(out: Bytes, line: Bytes, b: Bytes)
    ensures out + line + b == out + (line + b)
  {
  }

  /** The output file. A bounded one has room for `room` bytes: a write that
      goes past it stores what fits and fails (an -o file on a full disk). */
  datatype Device = Unbounded | Bounded(room: nat)

  predicate Fits(b: Bytes, dev: Device)
  {
    dev.Unbounded? || |b| <= dev.room
  }

  /** One write of `b` to a device that has received `out` so far: the new
      contents and whether the write succeeded. */
  function Put(out: Bytes, dev: Device, b: Bytes): (r: (Bytes, bool))
    requires Fits(out, dev)
    ensures Fits(r.0, dev) && out <= r.0 <= out + b
    ensures r.1 <==> r.0 == out + b
  {
    if Fits(out + b, dev) then (out + b, true) else ((out + b)[..dev.room], false)
  }

  /** What reaches a device when a pass would write `w` to an unbounded one:
      the longest prefix it has room for, and a write error if that is not all. */
  function Deliver(w: Written, dev: Device): (r: Written)
    ensures r.bytes <= w.bytes && Fits(r.bytes, dev)
    ensures Fits(w.bytes, dev) <==> r == w
    ensures !Fits(w.bytes, dev) ==> r.outcome == Fail(WriteFailed) && |r.bytes| == dev.room
  {
    if Fits(w.bytes, dev) then w else Written(w.bytes[..dev.room], Fail(WriteFailed))
  }

  /** A write that overflows the device decides what the whole pass delivers,
      whatever the pass would have written after it. */
  lemma Overflow(p: Bytes, w: Written, dev: Device)
    requires !Fits(p, dev)
    ensures Deliver(Then(p, w), dev) == Written(p[..dev.room], Fail(WriteFailed))
  {
    assert (p + w.bytes)[..dev.room] == p[..dev.room];
  }

  // ---------------------------------------------------------------------
  // Binary mode

  /** Binary mode on a reader that yields `stream` and then `end`: io.CopyN
      discards `skip` bytes (the end reached first finishes the pass), then
      io.CopyN copies `take` bytes (the end reached first finishes it too). */
  function BinaryWindow(stream: Bytes, end: End, skip: nat, take: nat): (w: Written)
    ensures w.bytes == stream[Min(skip, |stream|)..Min(skip + take, |stream|)]
    ensures |w.bytes| <= take
    ensures end.EndOfFile? ==> w.outcome == Pass
    ensures skip + take <= |stream| ==> w.outcome == Pass
    ensures w.outcome.Fail? ==> w.outcome == AtEnd(end) && |stream| < skip + take
    ensures |stream| < skip + take ==> w.outcome == AtEnd(end)
  {
    if |stream| < skip then Written([], AtEnd(end))
    else if skip + take <= |stream| then Written(stream[skip..skip + take], Pass)
    else Written(stream[skip..], AtEnd(end))
  }

  /** A byte write that overflows the output during the copy decides what
      binary mode delivers: the bytes up to the room, and a write error. */
  lemma BinaryOverflow(stream: Bytes, end: End, skip: nat, take: nat, pos: nat, dev: Device)
    requires skip <= pos < |stream| && pos < skip + take && !Fits(stream[skip..pos + 1], dev)
    ensures Deliver(BinaryWindow(stream, end, skip, take), dev)
         == Written(stream[skip..pos + 1][..dev.room], Fail(WriteFailed))
  {
    var w := BinaryWindow(stream, end, skip, take);
    var m := Min(skip + take, |stream|);
    assert Min(skip, |stream|) == skip && pos + 1 <= m;
    assert w.bytes == stream[skip..m];
    assert dev.room < pos + 1 - skip;
    assert w.bytes[..dev.room] == stream[skip..skip + dev.room];
    assert stream[skip..pos + 1][..dev.room] == stream[skip..skip + dev.room];
  }

  /** Binary mode as the two io.CopyN calls do it, one byte at a time:
      discard `start` bytes from the reader (its end reached first finishes
      the pass), then copy `length` bytes to the output. */
  method BinaryMode(stream: Bytes, end: End, start: int64, length: int64, dev: Device)
    returns (w: Written)
    ensures w == Deliver(BinaryWindow(stream, end, NonNeg(start), NonNeg(length)), dev)
  {
    var pos: nat := 0;
    while pos < start as int
      invariant pos <= NonNeg(start) && pos <= |stream|
    {
      if pos == |stream| {
        return Written([], AtEnd(end));
      }
      pos := pos + 1;
    }
    w := CopyBytes(stream, end, pos, length, dev);
  }

  /** The copying io.CopyN from reader position `skip`: the output only
      grows, by one byte of the stream per step, until `length` bytes are
      out, the reader ends or a write fails. */
  method CopyBytes(stream: Bytes, end: End, skip: nat, length: int64, dev: Device)
    returns (w: Written)
    requires skip <= |stream|
    ensures w == Deliver(BinaryWindow(stream, end, skip, NonNeg(length)), dev)
  {
    ghost var take := NonNeg(length);
    var pos := skip;
    var out: Bytes := [];
    var copied := 0;
    while copied < length as int
      invariant 0 <= copied <= take && pos == skip + copied <= |stream|
      invariant out == stream[skip..pos] && Fits(out, dev)
    {
      if pos == |stream| {
        return Written(out, AtEnd(end));
      }
      var put := Put(out, dev, [stream[pos]]);
      assert out + [stream[pos]] == stream[skip..pos + 1];
      if !put.1 {
        BinaryOverflow(stream, end, skip, take, pos, dev);
        return Written(put.0, Fail(WriteFailed));
      }
      out := put.0;
      pos, copied := pos + 1, copied + 1;
    }
    return Written(out, Pass);
  }

  // ---------------------------------------------------------------------
  // Text mode

  /** One answer of the reader's ReadLine: a piece of a line, and whether
      more of the same logical line follows. Line terminators are not part
      of `bytes`. */
  datatype Chunk = Chunk(bytes: Bytes, more: bool)

  /** A chunk sequence seen as logical lines: the complete lines (each the
      concatenation of a run of chunks ending with one whose `more` is
      false) and the unfinished tail that the end cuts off. */
  datatype Text = Text(lines: seq<Bytes>, tail: Bytes)

  /** Text whose first line (or tail, if it has no complete line) starts with `b`. */
  function Prepend(b: Bytes, t: Text): Text
  {
    if t.lines == [] then Text([], b + t.tail)
    else Text([b + t.lines[0]] + t.lines[1..], t.tail)
  }

  function Group(c: seq<Chunk>): Text
    decreases |c|
  {
    if c == [] then Text([], [])
    else
      var rest := Group(c[1..]);
      if c[0].more then Prepend(c[0].bytes, rest)
      else Text([c[0].bytes] + rest.lines, rest.tail)
  }

  /** Each line followed by one line terminator, as fmt.Fprintln writes it. */
  function Terminated(ls: seq<Bytes>): Bytes
  {
    if ls == [] then [] else ls[0] + [NL] + Terminated(ls[1..])
  }

  /** The chunks with a terminator after each chunk that ends a line. */
  function Render(c: seq<Chunk>): Bytes
  {
    if c == [] then [] else c[0].bytes + (if c[0].more then [] else [NL]) + Render(c[1..])
  }

  /** Text mode on text `t` whose reader then reports `end`: skip `skip`
      logical lines, then write `take` of them, each with one terminator.
      Reaching the end while skipping writes nothing; reaching it while
      writing leaves the unfinished line without a terminator. */
  function TextWindow(t: Text, end: End, skip: nat, take: nat): (w: Written)
    ensures |t.lines| < skip ==> w == Written([], AtEnd(end))
    ensures w.outcome.Fail? ==> w.outcome == AtEnd(end)
    ensures end.EndOfFile? ==> w.outcome == Pass
  {
    if |t.lines| < skip then Written([], AtEnd(end))
    else
      var rest := t.lines[skip..];
      if take <= |rest| then Written(Terminated(rest[..take]), Pass)
      else Written(Terminated(rest) + t.tail, AtEnd(end))
  }

  /** The three ways a text-mode pass ends, and that only a read error other
      than io.EOF makes it fail. */
  lemma TextWindowCases(t: Text, end: End, skip: nat, take: nat)
    ensures var w := TextWindow(t, end, skip, take);
      && (end.EndOfFile? ==> w.outcome == Pass)
      && (w.outcome.Fail? ==> w.outcome == AtEnd(end) && |t.lines| < skip + take)
      && (skip + take <= |t.lines| ==> w == Written(Terminated(t.lines[skip..skip + take]), Pass))
      && (|t.lines| < skip ==> w == Written([], AtEnd(end)))
      && (skip <= |t.lines| < skip + take ==> w == Written(Terminated(t.lines[skip..]) + t.tail, AtEnd(end)))
  {
    if skip + take <= |t.lines| {
      assert t.lines[skip..][..take] == t.lines[skip..skip + take];
    }
  }

  lemma {:induction false} TerminatedAppend(xs: seq<Bytes>, ys: seq<Bytes>)
    ensures Terminated(xs + ys) == Terminated(xs) + Terminated(ys)
  {
    if xs == [] {
      assert xs + ys == ys;
    } else {
      assert (xs + ys)[1..] == xs[1..] + ys;
      TerminatedAppend(xs[1..], ys);
    }
  }

  /** The logical lines, each followed by a terminator, and then the tail,
      are the chunks in order with a terminator after each line's last chunk. */
  lemma {:induction false} GroupRender(c: seq<Chunk>)
    ensures Terminated(Group(c).lines) + Group(c).tail == Render(c)
  {
    if c != [] {
      GroupRender(c[1..]);
      var rest := Group(c[1..]);
      if c[0].more && rest.lines != [] {
        assert ([c[0].bytes + rest.lines[0]] + rest.lines[1..])[1..] == rest.lines[1..];
      } else if !c[0].more {
        assert ([c[0].bytes] + rest.lines)[1..] == rest.lines;
      }
    }
  }

  /** The number of chunks that end a logical line. */
  function LineEnds(c: seq<Chunk>): nat
  {
    if c == [] then 0 else (if c[0].more then 0 else 1) + LineEnds(c[1..])
  }

  lemma {:induction false} LineEndsAppend(a: seq<Chunk>, b: seq<Chunk>)
    ensures LineEnds(a + b) == LineEnds(a) + LineEnds(b)
  {
    if a == [] {
      assert a + b == b;
    } else {
      assert (a + b)[1..] == a[1..] + b;
      LineEndsAppend(a[1..], b);
    }
  }

  /** There is one complete logical line per chunk that ends a line. */
  lemma {:induction false} GroupLineCount(c: seq<Chunk>)
    ensures |Group(c).lines| == LineEnds(c)
  {
    if c != [] {
      GroupLineCount(c[1..]);
    }
  }

  /** Reader position `i` is at a line boundary: at the start, or just
      after a chunk that ends a line. */
  predicate Boundary(c: seq<Chunk>, i: nat)
    requires i <= |c|
  {
    i == 0 || !c[i - 1].more
  }

  /** Chunks that end at a line boundary leave no unfinished line, and the
      lines of what follows come after theirs. */
  lemma {:induction false} GroupConcat(a: seq<Chunk>, b: seq<Chunk>)
    requires a == [] || !a[|a| - 1].more
    ensures Group(a).tail == [] && (a != [] ==> Group(a).lines != [])
    ensures Group(a + b) == Text(Group(a).lines + Group(b).lines, Group(b).tail)
  {
    if a == [] {
      assert a + b == b;
    } else {
      assert (a + b)[1..] == a[1..] + b;
      GroupConcat(a[1..], b);
      var ra, rb := Group(a[1..]), Group(b);
      if a[0].more {
        assert ra.lines != [];
        assert ([a[0].bytes + ra.lines[0]] + ra.lines[1..]) + rb.lines
            == [a[0].bytes + (ra.lines + rb.lines)[0]] + (ra.lines + rb.lines)[1..];
      } else {
        assert ([a[0].bytes] + ra.lines) + rb.lines == [a[0].bytes] + (ra.lines + rb.lines);
      }
    }
  }

  /** One more chunk after a run of chunks that has not ended a line yet. */
  lemma {:induction false} GroupSnoc(c: seq<Chunk>, x: Chunk)
    requires Group(c).lines == []
    ensures Group(c + [x]) == if x.more then Text([], Group(c).tail + x.bytes)
                              else Text([Group(c).tail + x.bytes], [])
  {
    if c == [] {
      assert c + [x] == [x];
      assert [x][1..] == [];
      assert Group([x][1..]) == Text([], []);
      assert Group(c).tail + x.bytes == x.bytes + [] == x.bytes;
    } else {
      assert (c + [x])[1..] == c[1..] + [x];
      GroupSnoc(c[1..], x);
      assert c[0].bytes + (Group(c[1..]).tail + x.bytes) == (c[0].bytes + Group(c[1..]).tail) + x.bytes;
    }
  }

  /** The chunks before a line boundary are exactly the first logical lines. */
  lemma SkippedPrefix(c: seq<Chunk>, i: nat)
    requires i <= |c| && Boundary(c, i)
    ensures LineEnds(c[..i]) <= |Group(c).lines|
    ensures Group(c[..i]) == Text(Group(c).lines[..LineEnds(c[..i])], [])
  {
    GroupConcat(c[..i], c[i..]);
    assert c[..i] + c[i..] == c;
    GroupLineCount(c[..i]);
  }

  /** One chunk further inside a logical line. */
  lemma LineStep(c: seq<Chunk>, pos: nat, next: nat)
    requires pos <= next < |c| && Group(c[pos..next]).lines == []
    ensures Group(c[pos..next + 1]) == if c[next].more then Text([], Group(c[pos..next]).tail + c[next].bytes)
                                       else Text([Group(c[pos..next]).tail + c[next].bytes], [])
  {
    assert c[pos..next + 1] == c[pos..next] + [c[next]];
    GroupSnoc(c[pos..next], c[next]);
  }

  /** One chunk further in the skip phase. */
  lemma SkipStep(c: seq<Chunk>, i: nat)
    requires i < |c|
    ensures LineEnds(c[..i + 1]) == LineEnds(c[..i]) + (if c[i].more then 0 else 1)
  {
    assert c[..i + 1] == c[..i] + [c[i]];
    LineEndsAppend(c[..i], [c[i]]);
    assert [c[i]][1..] == [];
  }

  lemma SkipThenTakeWithin(t: Text, end: End, skip: nat, take: nat)
    requires skip <= |t.lines|
    ensures TextWindow(t, end, 0, skip + take) == Then(Terminated(t.lines[..skip]), TextWindow(t, end, skip, take))
  {
    if skip + take <= |t.lines| {
      assert t.lines[0..][..skip + take] == t.lines[..skip] + t.lines[skip..][..take];
      TerminatedAppend(t.lines[..skip], t.lines[skip..][..take]);
    } else {
      assert t.lines[0..] == t.lines[..skip] + t.lines[skip..];
      TerminatedAppend(t.lines[..skip], t.lines[skip..]);
    }
  }

  /** Reading `skip + take` lines from the first and discarding the first
      `skip` gives what skipping `skip` and reading `take` gives. When the
      text has fewer than `skip` lines, skipping reaches the end and writes
      nothing, while reading from the first reaches the end as well. */
  lemma SkipThenTake(t: Text, end: End, skip: nat, take: nat)
    ensures skip <= |t.lines| ==>
      TextWindow(t, end, 0, skip + take) == Then(Terminated(t.lines[..skip]), TextWindow(t, end, skip, take))
    ensures |t.lines| < skip ==>
      && TextWindow(t, end, skip, take) == Written([], AtEnd(end))
      && TextWindow(t, end, 0, skip + take).outcome == AtEnd(end)
  {
    if skip <= |t.lines| {
      SkipThenTakeWithin(t, end, skip, take);
    }
  }

  // The four steps the text-mode loops take, one chunk at a time.

  lemma SkipMore(b: Bytes, t: Text, end: End, skip: nat, take: nat)
    requires skip > 0
    ensures TextWindow(Prepend(b, t), end, skip, take) == TextWindow(t, end, skip, take)
  {
    if t.lines != [] && skip <= |t.lines| {
      assert Prepend(b, t).lines[skip..] == t.lines[skip..];
    }
  }

  lemma SkipLast(b: Bytes, t: Text, end: End, skip: nat, take: nat)
    requires skip > 0
    ensures TextWindow(Text([b] + t.lines, t.tail), end, skip, take) == TextWindow(t, end, skip - 1, take)
  {
    if skip <= |t.lines| + 1 {
      assert ([b] + t.lines)[skip..] == t.lines[skip - 1..];
    }
  }

  lemma EmitMore(b: Bytes, t: Text, end: End, take: nat)
    requires take > 0
    ensures TextWindow(Prepend(b, t), end, 0, take) == Then(b, TextWindow(t, end, 0, take))
  {
    if t.lines != [] {
      var p := Prepend(b, t);
      if take <= |t.lines| {
        assert p.lines[0..][..take][1..] == t.lines[0..][..take][1..];
      } else {
        assert p.lines[0..][1..] == t.lines[0..][1..];
      }
    }
  }

  lemma EmitLast(b: Bytes, t: Text, end: End, take: nat)
    requires take > 0
    ensures TextWindow(Text([b] + t.lines, t.tail), end, 0, take)
         == Then(b + [NL], TextWindow(t, end, 0, take - 1))
  {
    var ls := [b] + t.lines;
    if take <= |ls| {
      assert ls[0..][..take][1..] == t.lines[0..][..take - 1];
    } else {
      assert ls[0..][1..] == t.lines[0..];
    }
  }

  /** Group at a position: one chunk, then the rest. */
  lemma GroupAt(c: seq<Chunk>, i: nat)
    requires i < |c|
    ensures Group(c[i..]) == if c[i].more then Prepend(c[i].bytes, Group(c[i + 1..]))
                             else Text([c[i].bytes] + Group(c[i + 1..]).lines, Group(c[i + 1..]).tail)
  {
    assert c[i..][1..] == c[i + 1..];
  }

  lemma StepSkip(c: seq<Chunk>, i: nat, end: End, skip: nat, take: nat)
    requires i < |c| && skip > 0
    ensures TextWindow(Group(c[i..]), end, skip, take)
         == TextWindow(Group(c[i + 1..]), end, if c[i].more then skip else skip - 1, take)
  {
    GroupAt(c, i);
    if c[i].more {
      SkipMore(c[i].bytes, Group(c[i + 1..]), end, skip, take);
    } else {
      SkipLast(c[i].bytes, Group(c[i + 1..]), end, skip, take);
    }
  }

  lemma StepEmit(c: seq<Chunk>, i: nat, end: End, take: nat)
    requires i < |c| && take > 0
    ensures TextWindow(Group(c[i..]), end, 0, take)
         == if c[i].more then Then(c[i].bytes, TextWindow(Group(c[i + 1..]), end, 0, take))
            else Then(c[i].bytes + [NL], TextWindow(Group(c[i + 1..]), end, 0, take - 1))
  {
    GroupAt(c, i);
    if c[i].more {
      EmitMore(c[i].bytes, Group(c[i + 1..]), end, take);
    } else {
      EmitLast(c[i].bytes, Group(c[i + 1..]), end, take);
    }
  }

  /** The emit phase read one ReadLine answer at a time from position `i`,
      with `k` lines still to emit. */
  function EmitFrom(c: seq<Chunk>, end: End, i: nat, k: nat): Written
    requires i <= |c|
    decreases |c| - i
  {
    if k == 0 then Written([], Pass)
    else if i == |c| then Written([], AtEnd(end))
    else if c[i].more then Then(c[i].bytes, EmitFrom(c, end, i + 1, k))
    else Then(c[i].bytes + [NL], EmitFrom(c, end, i + 1, k - 1))
  }

  /** The skip phase read one answer at a time from position `i`, with `s`
      lines still to skip, followed by the emit phase. */
  function SkipFrom(c: seq<Chunk>, end: End, i: nat, s: nat, take: nat): Written
    requires i <= |c|
    decreases |c| - i
  {
    if s == 0 then EmitFrom(c, end, i, take)
    else if i == |c| then Written([], AtEnd(end))
    else SkipFrom(c, end, i + 1, if c[i].more then s else s - 1, take)
  }

  /** Reading chunk by chunk emits the logical lines of the rest of the chunks. */
  lemma {:induction false} EmitFromWindow(c: seq<Chunk>, end: End, i: nat, k: nat)
    requires i <= |c|
    ensures EmitFrom(c, end, i, k) == TextWindow(Group(c[i..]), end, 0, k)
    decreases |c| - i
  {
    if i == |c| {
      assert c[i..] == [];
    } else if k > 0 {
      StepEmit(c, i, end, k);
      EmitFromWindow(c, end, i + 1, if c[i].more then k else k - 1);
    }
  }

  /** Reading chunk by chunk skips and emits the logical lines of the rest of the chunks. */
  lemma {:induction false} SkipFromWindow(c: seq<Chunk>, end: End, i: nat, s: nat, take: nat)
    requires i <= |c|
    ensures SkipFrom(c, end, i, s, take) == TextWindow(Group(c[i..]), end, s, take)
    decreases |c| - i
  {
    if s == 0 {
      EmitFromWindow(c, end, i, take);
    } else if i == |c| {
      assert c[i..] == [];
    } else {
      StepSkip(c, i, end, s, take);
      SkipFromWindow(c, end, i + 1, if c[i].more then s else s - 1, take);
    }
  }

  /** Text mode: skip `start` logical lines, then emit `length` of them. */
  method TextMode(chunks: seq<Chunk>, end: End, start: int64, length: int64, dev: Device)
    returns (w: Written)
    ensures w == Deliver(TextWindow(Group(chunks), end, NonNeg(start), NonNeg(length)), dev)
  {
    SkipFromWindow(chunks, end, 0, NonNeg(start), NonNeg(length));
    assert chunks[0..] == chunks;
    var i, ended := SkipLines(chunks, end, start, NonNeg(length));
    if ended {
      return Written([], AtEnd(end));
    }
    w := EmitLines(chunks, end, i, length, dev);
  }

  /** The skip phase: read `start` logical lines, one ReadLine call per chunk,
      and write nothing. `i` is where the reader stands afterwards: just past
      the first `start` logical lines. `ended` says the reader reached its
      end first, because the text has fewer lines; that finishes the pass. */
  method SkipLines(chunks: seq<Chunk>, end: End, start: int64, ghost take: nat)
    returns (i: nat, ended: bool)
    ensures i <= |chunks|
    ensures !ended ==> Boundary(chunks, i) && NonNeg(start) <= |Group(chunks).lines|
    ensures !ended ==> Group(chunks[..i]) == Text(Group(chunks).lines[..NonNeg(start)], [])
    ensures ended ==> |Group(chunks).lines| < NonNeg(start)
    ensures ended ==> SkipFrom(chunks, end, 0, NonNeg(start), take) == Written([], AtEnd(end))
    ensures !ended ==> SkipFrom(chunks, end, 0, NonNeg(start), take) == EmitFrom(chunks, end, i, take)
  {
    ghost var skip := NonNeg(start);
    ghost var ideal := SkipFrom(chunks, end, 0, skip, take);
    i := 0;
    var count := 0;
    assert chunks[..0] == [];
    while count < start as int
      invariant 0 <= count <= skip && i <= |chunks|
      invariant Boundary(chunks, i) && LineEnds(chunks[..i]) == count
      invariant ideal == SkipFrom(chunks, end, i, skip - count, take)
    {
      i, ended := SkipLine(chunks, end, i, skip - count, take);
      if ended {
        assert chunks[..i] == chunks;
        GroupLineCount(chunks);
        return;
      }
      count := count + 1;
    }
    SkippedPrefix(chunks, i);
    return i, false;
  }

  /** The inner loop of the skip phase: read the chunks of one logical line
      from reader position `pos`, while `s` lines remain to be skipped.
      Either the reader ends first, or it stops just past the line. */
  method SkipLine(chunks: seq<Chunk>, end: End, pos: nat, ghost s: nat, ghost take: nat)
    returns (next: nat, ended: bool)
    requires pos <= |chunks| && s > 0
    ensures pos <= next <= |chunks|
    ensures ended ==> next == |chunks| && LineEnds(chunks[..next]) == LineEnds(chunks[..pos])
    ensures ended ==> SkipFrom(chunks, end, pos, s, take) == Written([], AtEnd(end))
    ensures !ended ==> Boundary(chunks, next) && LineEnds(chunks[..next]) == LineEnds(chunks[..pos]) + 1
    ensures !ended ==> SkipFrom(chunks, end, pos, s, take) == SkipFrom(chunks, end, next, s - 1, take)
  {
    ghost var ideal := SkipFrom(chunks, end, pos, s, take);
    next := pos;
    var more := true;
    while more
      invariant pos <= next <= |chunks|
      invariant LineEnds(chunks[..next]) == LineEnds(chunks[..pos]) + (if more then 0 else 1)
      invariant !more ==> Boundary(chunks, next)
      invariant ideal == SkipFrom(chunks, end, next, if more then s else s - 1, take)
      decreases |chunks| - next
    {
      if next == |chunks| {
        return next, true;
      }
      SkipStep(chunks, next);
      more := chunks[next].more;
      next := next + 1;
    }
    return next, false;
  }

  /** The emit phase from reader position `i`: emit `length` logical lines. */
  method EmitLines(chunks: seq<Chunk>, end: End, i: nat, length: int64, dev: Device)
    returns (w: Written)
    requires i <= |chunks|
    ensures w == Deliver(EmitFrom(chunks, end, i, NonNeg(length)), dev)
  {
    ghost var take := NonNeg(length);
    ghost var ideal := EmitFrom(chunks, end, i, take);
    var pos: nat := i;
    var out: Bytes := [];
    var count := 0;
    while count < length as int
      invariant 0 <= count <= take && pos <= |chunks| && Fits(out, dev)
      invariant ideal == Then(out, EmitFrom(chunks, end, pos, take - count))
    {
      var finished;
      pos, out, finished := EmitLine(chunks, end, pos, out, dev, take - count);
      if finished.Some? {
        return finished.value;
      }
      count := count + 1;
    }
    return Written(out, Pass);
  }

  /** Emit one logical line from reader position `pos` to a device holding
      `out`, while `k` lines remain to be emitted: write its chunks as they
      are read, then one terminator. Either the pass finishes here (the
      reader's end, a failed write), or the chunks from `pos` to `next` form
      exactly one logical line, the output has grown by that line and one
      terminator, and `k - 1` lines remain. */
  method EmitLine(chunks: seq<Chunk>, end: End, pos: nat, out: Bytes, dev: Device, ghost k: nat)
    returns (next: nat, written: Bytes, finished: Option<Written>)
    requires pos <= |chunks| && Fits(out, dev) && k > 0
    ensures next <= |chunks| && Fits(written, dev)
    ensures finished.Some? ==> finished.value == Deliver(Then(out, EmitFrom(chunks, end, pos, k)), dev)
    ensures finished.None? ==>
      && pos < next && Boundary(chunks, next)
      && |Group(chunks[pos..next]).lines| == 1 && Group(chunks[pos..next]).tail == []
      && written == out + Group(chunks[pos..next]).lines[0] + [NL]
    ensures finished.None? ==>
      Then(out, EmitFrom(chunks, end, pos, k)) == Then(written, EmitFrom(chunks, end, next, k - 1))
  {
    next, written, finished := CopyLine(chunks, end, pos, out, dev, k);
    if finished.Some? {
      return;
    }
    ghost var rest := EmitFrom(chunks, end, next, k - 1);
    var put := Put(written, dev, [NL]);
    if !put.1 {
      Overflow(written + [NL], rest, dev);
      return next, put.0, Some(Written(put.0, Fail(WriteFailed)));
    }
    written := put.0;
  }

  /** The inner loop of the emit phase: copy the chunks of one logical line
      from reader position `pos` as they are read. Either the pass finishes
      here (the reader's end, a failed write), or the chunks from `pos` to
      `next` form exactly one logical line, the output has grown by it, and
      only its terminator is still due. */
  method CopyLine(chunks: seq<Chunk>, end: End, pos: nat, out: Bytes, dev: Device, ghost k: nat)
    returns (next: nat, written: Bytes, finished: Option<Written>)
    requires pos <= |chunks| && Fits(out, dev) && k > 0
    ensures next <= |chunks| && Fits(written, dev)
    ensures finished.Some? ==> finished.value == Deliver(Then(out, EmitFrom(chunks, end, pos, k)), dev)
    ensures finished.None? ==>
      && pos < next && Boundary(chunks, next)
      && |Group(chunks[pos..next]).lines| == 1 && Group(chunks[pos..next]).tail == []
      && written == out + Group(chunks[pos..next]).lines[0]
    ensures finished.None? ==>
      Then(out, EmitFrom(chunks, end, pos, k)) == Then(written + [NL], EmitFrom(chunks, end, next, k - 1))
  {
    ghost var ideal := Then(out, EmitFrom(chunks, end, pos, k));
    ghost var line: Bytes := [];
    next, written, finished := pos, out, None;
    var more := true;
    assert chunks[pos..next] == [];
    while more
      invariant pos <= next <= |chunks| && Fits(written, dev) && written == out + line
      invariant more ==> Group(chunks[pos..next]) == Text([], line)
      invariant !more ==> pos < next && !chunks[next - 1].more && Group(chunks[pos..next]) == Text([line], [])
      invariant more ==> ideal == Then(written, EmitFrom(chunks, end, next, k))
      invariant !more ==> ideal == Then(written + [NL], EmitFrom(chunks, end, next, k - 1))
      decreases |chunks| - next
    {
      if next == |chunks| {
        return next, written, Some(Written(written, AtEnd(end)));
      }
      var chunk := chunks[next];
      LineStep(chunks, pos, next);
      next := next + 1;
      more := chunk.more;
      ghost var after := if more then EmitFrom(chunks, end, next, k)
                         else Then([NL], EmitFrom(chunks, end, next, k - 1));
      ThenThen(written, chunk.bytes, after);
      if !more {
        ThenThen(chunk.bytes, [NL], EmitFrom(chunks, end, next, k - 1));
      }
      var put := Put(written, dev, chunk.bytes);
      if !put.1 {
        Overflow(written + chunk.bytes, after, dev);
        return next, put.0, Some(Written(put.0, Fail(WriteFailed)));
      }
      Grow(out, line, chunk.bytes);
      written, line := put.0, line + chunk.bytes;
      if !more {
        ThenThen(written, [NL], EmitFrom(chunks, end, next, k - 1));
      }
    }
  }

  // ---------------------------------------------------------------------
  // Counting line terminators

  function Count(x: byte, s: Bytes): nat
  {
    if s == [] then 0 else (if s[0] == x then 1 else 0) + Count(x, s[1..])
  }

  lemma {:induction false} CountAppend(x: byte, a: Bytes, b: Bytes)
    ensures Count(x, a + b) == Count(x, a) + Count(x, b)
  {
    if a == [] {
      assert a + b == b;
    } else {
      assert (a + b)[1..] == a[1..] + b;
      CountAppend(x, a[1..], b);
    }
  }

  lemma {:induction false} CountAbsent(x: byte, s: Bytes)
    requires x !in s
    ensures Count(x, s) == 0
  {
    if s != [] {
      CountAbsent(x, s[1..]);
    }
  }

  /** ReadLine strips line terminators, so no chunk holds one. */
  predicate NoTerminator(c: seq<Chunk>)
  {
    forall k :: 0 <= k < |c| ==> NL !in c[k].bytes
  }

  predicate LinesWithoutTerminator(ls: seq<Bytes>)
  {
    forall k :: 0 <= k < |ls| ==> NL !in ls[k]
  }

  lemma {:induction false} GroupNoTerminator(c: seq<Chunk>)
    requires NoTerminator(c)
    ensures LinesWithoutTerminator(Group(c).lines) && NL !in Group(c).tail
  {
    if c != [] {
      GroupNoTerminator(c[1..]);
      var rest := Group(c[1..]);
      if c[0].more && rest.lines != [] {
        var ls := [c[0].bytes + rest.lines[0]] + rest.lines[1..];
        forall k | 0 <= k < |ls| ensures NL !in ls[k] {
          if k > 0 {
            assert ls[k] == rest.lines[k];
          }
        }
      } else if !c[0].more {
        var ls := [c[0].bytes] + rest.lines;
        forall k | 0 <= k < |ls| ensures NL !in ls[k] {
          if k > 0 {
            assert ls[k] == rest.lines[k - 1];
          }
        }
      }
    }
  }

  lemma {:induction false} TerminatedCount(ls: seq<Bytes>)
    requires LinesWithoutTerminator(ls)
    ensures Count(NL, Terminated(ls)) == |ls|
  {
    if ls != [] {
      TerminatedCount(ls[1..]);
      CountAbsent(NL, ls[0]);
      CountAppend(NL, ls[0], [NL]);
      CountAppend(NL, ls[0] + [NL], Terminated(ls[1..]));
    }
  }

  /** Text mode writes one terminator per logical line it emits: at most
      `take`, exactly `take` when the reader does not reach its end first,
      and none when the end comes during the skip. */
  lemma TextTerminators(c: seq<Chunk>, end: End, skip: nat, take: nat)
    requires NoTerminator(c)
    ensures var t := Group(c);
            var n := Count(NL, TextWindow(t, end, skip, take).bytes);
            && n <= take
            && (|t.lines| < skip ==> n == 0)
            && (skip <= |t.lines| ==> n == Min(take, |t.lines| - skip))
            && (skip + take <= |t.lines| ==> n == take)
  {
    var t := Group(c);
    GroupNoTerminator(c);
    if skip <= |t.lines| {
      var rest := t.lines[skip..];
      if take <= |rest| {
        TerminatedCount(rest[..take]);
      } else {
        TerminatedCount(rest);
        CountAbsent(NL, t.tail);
        CountAppend(NL, Terminated(rest), t.tail);
      }
    }
  }
}
