/** Newline-terminated records, the form of both the native histories and the diagnostic logs. */
module Records {
  import opened Prelude

  const NEWLINE: Byte := 10

  /** The bytes after the last newline. */
  function Tail(bytes: seq<Byte>): (t: seq<Byte>)
    ensures |t| <= |bytes| && NEWLINE !in t
  {
    if bytes == [] || bytes[|bytes| - 1] == NEWLINE then [] else Tail(bytes[..|bytes| - 1]) + [bytes[|bytes| - 1]]
  }

  /** The terminated records, in order and without their newlines. */
  function Lines(bytes: seq<Byte>): seq<seq<Byte>> {
    if bytes == [] then []
    else
      var rest := bytes[..|bytes| - 1];
      if bytes[|bytes| - 1] == NEWLINE then Lines(rest) + [Tail(rest)] else Lines(rest)
  }

  function Joined(lines: seq<seq<Byte>>): seq<Byte> {
    if lines == [] then [] else Joined(lines[..|lines| - 1]) + lines[|lines| - 1] + [NEWLINE]
  }

  /** Splitting and joining are inverse: nothing is lost, moved or invented. */
  lemma {:induction false} SplitJoins(bytes: seq<Byte>)
    ensures Joined(Lines(bytes)) + Tail(bytes) == bytes
  {
    if bytes != [] {
      var rest, last := bytes[..|bytes| - 1], bytes[|bytes| - 1];
      SplitJoins(rest);
      assert bytes == rest + [last];
      if last == NEWLINE {
        assert Lines(bytes)[..|Lines(bytes)| - 1] == Lines(rest);
      }
    }
  }

  lemma AppendByte(bytes: seq<Byte>, b: Byte)
    ensures Lines(bytes + [b]) == if b == NEWLINE then Lines(bytes) + [Tail(bytes)] else Lines(bytes)
    ensures Tail(bytes + [b]) == if b == NEWLINE then [] else Tail(bytes) + [b]
  {
    assert (bytes + [b])[..|bytes + [b]| - 1] == bytes;
  }

  /** Bytes without a newline only lengthen the tail. */
  lemma {:induction false} AppendRun(bytes: seq<Byte>, run: seq<Byte>)
    requires NEWLINE !in run
    ensures Lines(bytes + run) == Lines(bytes) && Tail(bytes + run) == Tail(bytes) + run
  {
    hide Lines, Tail;
    if run == [] {
      assert bytes + run == bytes && Tail(bytes) + run == Tail(bytes);
    } else {
      var rest, last := run[..|run| - 1], run[|run| - 1];
      assert last in run && NEWLINE !in rest;
      AppendRun(bytes, rest);
      AppendByte(bytes + rest, last);
      assert (bytes + rest) + [last] == bytes + run;
      assert (Tail(bytes) + rest) + [last] == Tail(bytes) + run;
    }
  }

  /** More bytes keep the records there are, and the tail begins the next one. */
  lemma {:induction false} LinesExtend(bytes: seq<Byte>, more: seq<Byte>)
    ensures Lines(bytes) <= Lines(bytes + more)
    ensures if |Lines(bytes + more)| > |Lines(bytes)| then Tail(bytes) <= Lines(bytes + more)[|Lines(bytes)|]
            else Tail(bytes) <= Tail(bytes + more)
  {
    if more == [] {
      assert bytes + more == bytes;
    } else {
      var rest, last := more[..|more| - 1], more[|more| - 1];
      LinesExtend(bytes, rest);
      AppendByte(bytes + rest, last);
      assert bytes + more == bytes + rest + [last];
      hide Lines, Tail;
    }
  }

  /** After a complete record the two parts are read separately. */
  lemma {:induction false} SplitAt(bytes: seq<Byte>, more: seq<Byte>)
    requires Tail(bytes) == []
    ensures Lines(bytes + more) == Lines(bytes) + Lines(more) && Tail(bytes + more) == Tail(more)
  {
    if more == [] {
      assert bytes + more == bytes;
      assert Lines(bytes) + [] == Lines(bytes);
    } else {
      var rest, last := more[..|more| - 1], more[|more| - 1];
      SplitAt(bytes, rest);
      assert (bytes + more)[..|bytes + more| - 1] == bytes + rest;
    }
  }

  lemma {:induction false} NoNewlines(bytes: seq<Byte>)
    ensures forall i :: 0 <= i < |Lines(bytes)| ==> NEWLINE !in Lines(bytes)[i]
  {
    if bytes != [] {
      NoNewlines(bytes[..|bytes| - 1]);
    }
  }

  lemma CompleteRecord(bytes: seq<Byte>, line: seq<Byte>)
    requires Tail(bytes) == [] && NEWLINE !in line
    ensures Lines(bytes + line + [NEWLINE]) == Lines(bytes) + [line] && Tail(bytes + line + [NEWLINE]) == []
  {
    AppendRun(bytes, line);
    AppendByte(bytes + line, NEWLINE);
    assert [] + line == line;
  }

  /** Joining newline-free records and splitting them again. */
  lemma {:induction false} JoinSplits(lines: seq<seq<Byte>>)
    requires forall i :: 0 <= i < |lines| ==> NEWLINE !in lines[i]
    ensures Lines(Joined(lines)) == lines && Tail(Joined(lines)) == []
  {
    if lines != [] {
      hide Lines, Tail;
      JoinSplits(lines[..|lines| - 1]);
      CompleteRecord(Joined(lines[..|lines| - 1]), lines[|lines| - 1]);
      assert lines[..|lines| - 1] + [lines[|lines| - 1]] == lines;
    }
  }

  lemma {:induction false} JoinedAppend(lines: seq<seq<Byte>>, more: seq<seq<Byte>>)
    ensures Joined(lines + more) == Joined(lines) + Joined(more)
  {
    if more == [] {
      assert lines + more == lines;
    } else {
      JoinedAppend(lines, more[..|more| - 1]);
      assert (lines + more)[..|lines + more| - 1] == lines + more[..|more| - 1];
      assert Joined(lines + more) == Joined(lines) + (Joined(more[..|more| - 1]) + more[|more| - 1] + [NEWLINE]);
    }
  }

  /** The index of the first newline, or the length when there is none. */
  method FirstNewline(bytes: array<Byte>, start: nat, count: nat) returns (stop: nat)
    requires start <= count <= bytes.Length
    ensures start <= stop <= count && NEWLINE !in bytes[start..stop]
    ensures stop < count ==> bytes[stop] == NEWLINE
  {
    stop := start;
    while stop < count && bytes[stop] != NEWLINE
      invariant start <= stop <= count && NEWLINE !in bytes[start..stop]
    {
      stop := stop + 1;
    }
  }
}
