/** The sequential text of the tailer and of the drain: `readAvailable`'s two loops over its offset
    and buffer, and the loop that writes each event back as a newline-terminated line. */
module LineTailer {
  import opened Options
  import opened SessionStream

  /** Every complete line of a text, without its newline. */
  function CompleteLines(text: Bytes): (lines: seq<Bytes>)
    ensures forall line :: line in lines ==> NEWLINE !in line
    decreases |text|
  {
    var i := NewlineIndex(text);
    if i == |text| then [] else [text[..i]] + CompleteLines(text[i + 1..])
  }

  /** What follows the last newline. */
  function Remainder(text: Bytes): (rest: Bytes)
    ensures NEWLINE !in rest
    decreases |text|
  {
    var i := NewlineIndex(text);
    if i == |text| then
      assert text[..i] == text;
      text
    else Remainder(text[i + 1..])
  }

  lemma JoinCons(head: Bytes, lines: seq<Bytes>, rest: Bytes)
    ensures Join([head] + lines) + rest == head + [NEWLINE] + (Join(lines) + rest)
  {
    assert ([head] + lines)[1..] == lines;
  }

  /** Splitting loses and invents nothing. */
  lemma {:induction false} SplitIsExact(text: Bytes)
    ensures Join(CompleteLines(text)) + Remainder(text) == text
    decreases |text|
  {
    hide Join, NewlineIndex;
    var i := NewlineIndex(text);
    if i < |text| {
      var rest := text[i + 1..];
      SplitIsExact(rest);
      JoinCons(text[..i], CompleteLines(rest), Remainder(rest));
      CutAt(text, i);
    } else {
      EmptyJoin(text);
    }
  }

  lemma CutAt(text: Bytes, i: nat)
    requires i < |text|
    ensures text == text[..i] + [text[i]] + text[i + 1..]
  {
  }

  lemma EmptyJoin(rest: Bytes)
    ensures Join([]) + rest == rest
  {
  }

  lemma {:induction false} IndexInPrefix(a: Bytes, b: Bytes)
    requires NewlineIndex(a) < |a|
    ensures NewlineIndex(a + b) == NewlineIndex(a)
  {
    if a[0] != NEWLINE {
      assert (a + b)[1..] == a[1..] + b;
      IndexInPrefix(a[1..], b);
    }
  }

  /** Chunk boundaries do not matter: splitting what has arrived so far, and later the remainder
      together with what arrived since, finds the same lines as splitting everything at once. */
  lemma {:induction false} ChunksDoNotMatter(a: Bytes, b: Bytes)
    ensures CompleteLines(a + b) == CompleteLines(a) + CompleteLines(Remainder(a) + b)
    ensures Remainder(a + b) == Remainder(Remainder(a) + b)
    decreases |a|
  {
    var i := NewlineIndex(a);
    if i < |a| {
      IndexInPrefix(a, b);
      assert (a + b)[..i] == a[..i];
      assert (a + b)[i + 1..] == a[i + 1..] + b;
      ChunksDoNotMatter(a[i + 1..], b);
      var first, later := CompleteLines(a[i + 1..]), CompleteLines(Remainder(a) + b);
      assert [a[..i]] + (first + later) == [a[..i]] + first + later;
    } else {
      assert CompleteLines(a) == [] && Remainder(a) == a;
    }
  }

  lemma FlushTerminates(text: Bytes)
    ensures var lines, rest := CompleteLines(text), Remainder(text);
            Join(if |rest| > 0 then lines + [rest] else lines) == Terminated(text)
  {
    var lines, rest := CompleteLines(text), Remainder(text);
    SplitIsExact(text);
    if |rest| > 0 {
      JoinAppend(lines, rest);
      assert text[|text| - 1] == rest[|rest| - 1];
    } else {
      JoinTerminates([], lines);
      assert [] + Join(lines) == Join(lines) == text;
    }
    hide Join;
  }

  class Reader {
    const chunk: nat
    var offset: nat
    var buf: Bytes
    var sent: seq<Bytes>   // every line handed to emit, in order

    constructor (chunk: nat)
      requires chunk > 0
      ensures offset == 0 && buf == [] && sent == [] && this.chunk == chunk
      ensures forall file :: Valid(file)
    {
      this.chunk := chunk;
      offset, buf, sent := 0, [], [];
    }

    /** The state between calls: everything read so far has been split. */
    ghost predicate Valid(file: Bytes)
      reads this
    {
      && chunk > 0
      && offset <= |file|
      && sent == CompleteLines(file[..offset])
      && buf == Remainder(file[..offset])
    }

    /** The read loop: ReadAt until it reports the end of the file. */
    method ReadToEnd(file: Bytes)
      requires chunk > 0 && offset <= |file|
      modifies this`offset, this`buf
      ensures offset == |file| && buf == old(buf) + file[old(offset)..]
    {
      var eof := false;
      while !eof
        invariant old(offset) <= offset <= |file|
        invariant buf == old(buf) + file[old(offset)..offset]
        invariant eof ==> offset == |file|
        decreases !eof, |file| - offset
      {
        var n := if |file| - offset < chunk then |file| - offset else chunk;
        eof := n < chunk;
        buf := buf + file[offset..offset + n];
        offset := offset + n;
      }
    }

    /** The split loop: emit every complete line and keep the partial one. */
    method EmitLines()
      modifies this`buf, this`sent
      ensures sent == old(sent) + CompleteLines(old(buf)) && buf == Remainder(old(buf))
    {
      var i := NewlineIndex(buf);
      while i < |buf|
        invariant i == NewlineIndex(buf)
        invariant sent + CompleteLines(buf) == old(sent) + CompleteLines(old(buf))
        invariant Remainder(buf) == Remainder(old(buf))
        decreases |buf|
      {
        ghost var rest := CompleteLines(buf[i + 1..]);
        assert sent + ([buf[..i]] + rest) == sent + [buf[..i]] + rest;
        sent := sent + [buf[..i]];
        buf := buf[i + 1..];
        i := NewlineIndex(buf);
      }
    }

    /** One call of readAvailable on a file that has grown since the last one. */
    method ReadAvailable(file: Bytes)
      requires Valid(file)
      modifies this`offset, this`buf, this`sent
      ensures Valid(file) && offset == |file|
    {
      assert file[..offset] + file[offset..] == file;
      ChunksDoNotMatter(file[..offset], file[offset..]);
      ReadToEnd(file);
      EmitLines();
      assert file[..|file|] == file;
    }

    /** The tailer's last act: one more read, then the unterminated line, if any. */
    method Finish(file: Bytes)
      requires Valid(file)
      modifies this`offset, this`buf, this`sent
      ensures Join(sent) == Terminated(file)
    {
      ReadAvailable(file);
      assert file[..offset] == file;
      FlushTerminates(file);
      if |buf| > 0 {
        sent := sent + [buf];
      }
    }
  }

  lemma {:induction false} JoinTerminates(out: Bytes, lines: seq<Bytes>)
    requires Terminates(out)
    ensures Terminates(out + Join(lines))
    decreases |lines|
  {
    if lines == [] {
      assert out + Join(lines) == out;
    } else {
      JoinTerminates(out + lines[0] + [NEWLINE], lines[1..]);
      assert out + Join(lines) == out + lines[0] + [NEWLINE] + Join(lines[1..]);
    }
  }

  datatype DrainError = NoFailure | CreateFailed | WriteFailed | CloseFailed

  /** What a write that reports an error may still have put into the file. */
  function PartOf(line: Bytes, count: nat): (part: Bytes)
    ensures part <= line
  {
    if count <= |line| then line[..count] else line
  }

  /** The drain: each received line is written with a newline and then shown to the metrics, until the
      channel is closed or a write fails. `fault` says of each write whether it fails, and after how many
      bytes. The metrics see exactly the lines that were written whole. */
  method DrainEvents(events: seq<Bytes>, createOk: bool, fault: nat -> Option<nat>, closeOk: bool)
    returns (file: Bytes, observed: seq<Bytes>, err: DrainError)
    ensures !createOk ==> file == [] && observed == [] && err == CreateFailed
    ensures createOk ==> observed <= events && forall i :: 0 <= i < |observed| ==> fault(i) == None
    ensures createOk && observed == events ==> file == Join(events) && err == if closeOk then NoFailure else CloseFailed
    ensures createOk && observed != events ==>
              && |observed| < |events| && fault(|observed|).Some? && err == WriteFailed
              && file == Join(observed) + PartOf(events[|observed|] + [NEWLINE], fault(|observed|).value)
  {
    file, observed := [], [];
    if !createOk {
      return file, observed, CreateFailed;
    }
    for i := 0 to |events|
      invariant observed == events[..i] && file == Join(observed)
      invariant forall k :: 0 <= k < i ==> fault(k) == None
    {
      var line := events[i] + [NEWLINE];
      if fault(i).Some? {
        file := file + PartOf(line, fault(i).value);
        return file, observed, WriteFailed;
      }
      file := file + line;
      JoinAppend(events[..i], events[i]);
      assert events[..i + 1] == events[..i] + [events[i]];
      observed := observed + [events[i]];
    }
    err := if closeOk then NoFailure else CloseFailed;
  }
}
