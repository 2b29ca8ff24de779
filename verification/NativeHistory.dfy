/**
 * NativeHistory.cs: a boundary captured in a growing file of newline-terminated records, and the chunked scan
 * that later delivers what was completed after it. parse stands for the JSON validation of one record. The
 * digest of the first bytes is modelled by those bytes themselves, so it has no collisions.
 */
module NativeHistory {
  import opened Prelude
  import opened Records

  const MAXIMUM_INTERVAL := 8388608
  const MAXIMUM_RECORD := 33554432
  const CHUNK_BYTES := 65536
  const HEADER_BYTES := 4096

  // ---- File identity

  /** Device numbers are 32-bit; inode numbers are 64-bit. */
  datatype Metadata = Metadata(major: bv64, minor: bv64, inode: bv64)

  predicate Narrow(m: Metadata) {
    m.major <= 0xffffffff && m.minor <= 0xffffffff
  }

  datatype Identity = Identity(device: bv64, inode: bv64)

  function Device(major: bv64, minor: bv64): bv64 {
    ((major & 0xfff) << 8) | ((major & 0xfffff000) << 32) | (minor & 0xff) | ((minor & 0xffffff00) << 12)
  }

  function Key(m: Metadata): Identity {
    Identity(Device(m.major, m.minor), m.inode)
  }

  lemma Unpack(major: bv64, minor: bv64)
    requires major <= 0xffffffff && minor <= 0xffffffff
    ensures ((Device(major, minor) >> 8) & 0xfff) | ((Device(major, minor) >> 32) & 0xfffff000) == major
    ensures (Device(major, minor) & 0xff) | ((Device(major, minor) >> 12) & 0xffffff00) == minor
  {
  }

  /** Different files never share a key. */
  lemma KeyInjective(m: Metadata, n: Metadata)
    requires Narrow(m) && Narrow(n)
    ensures Key(m) == Key(n) <==> m == n
  {
    Unpack(m.major, m.minor);
    Unpack(n.major, n.minor);
    hide Device;
  }

  // ---- Files, boundaries and what a scan means

  datatype File = File(metadata: Metadata, bytes: seq<Byte>)

  datatype Boundary = Boundary(key: Identity, position: nat, prefix: seq<Byte>)

  datatype Outcome = Finished | Lost | TooLong | Unreadable | Missing

  function Prefix(bytes: seq<Byte>, position: nat): seq<Byte>
    requires position <= |bytes|
  {
    bytes[..if position < 256 then position else 256]
  }

  predicate Holds(file: File, b: Boundary) {
    b.key == Key(file.metadata) && b.position <= |file.bytes| && b.prefix == Prefix(file.bytes, b.position)
  }

  function NonEmpty(lines: seq<seq<Byte>>): seq<seq<Byte>> {
    if lines == [] then []
    else NonEmpty(lines[..|lines| - 1]) + (if lines[|lines| - 1] == [] then [] else [lines[|lines| - 1]])
  }

  predicate Acceptable(line: seq<Byte>, parse: seq<Byte> -> bool) {
    |line| <= MAXIMUM_RECORD && (line == [] || parse(line))
  }

  /** The records before the first one that is too long or does not parse. */
  function Good(lines: seq<seq<Byte>>, parse: seq<Byte> -> bool): seq<seq<Byte>> {
    if lines == [] then []
    else
      var before := Good(lines[..|lines| - 1], parse);
      if |before| == |lines| - 1 && Acceptable(lines[|lines| - 1], parse) then lines else before
  }

  predicate Readable(bytes: seq<Byte>, parse: seq<Byte> -> bool) {
    Good(Lines(bytes), parse) == Lines(bytes) && |Tail(bytes)| <= MAXIMUM_RECORD
  }

  /** The first record that is not delivered is too long, or else the unfinished one is. */
  predicate Overlong(bytes: seq<Byte>, parse: seq<Byte> -> bool) {
    var lines, n := Lines(bytes), |Good(Lines(bytes), parse)|;
    |if n < |lines| then lines[n] else Tail(bytes)| > MAXIMUM_RECORD
  }

  /** The records before the first that has more than 33554432 bytes or, if not empty, does not parse. */
  lemma {:induction false} GoodMeans(lines: seq<seq<Byte>>, parse: seq<Byte> -> bool) returns (n: nat)
    ensures n <= |lines| && Good(lines, parse) == lines[..n]
    ensures forall i :: 0 <= i < n ==> |lines[i]| <= 33554432 && (lines[i] == [] || parse(lines[i]))
    ensures n < |lines| ==> |lines[n]| > 33554432 || (lines[n] != [] && !parse(lines[n]))
  {
    if lines == [] {
      n := 0;
    } else {
      n := GoodMeans(lines[..|lines| - 1], parse);
      assert lines[..|lines| - 1][..n] == lines[..n];
      if n == |lines| - 1 && Acceptable(lines[n], parse) {
        n := |lines|;
      }
    }
  }

  lemma {:induction false} GoodPrefix(lines: seq<seq<Byte>>, parse: seq<Byte> -> bool)
    ensures Good(lines, parse) <= lines && forall i :: 0 <= i < |Good(lines, parse)| ==> Acceptable(lines[i], parse)
  {
    if lines != [] {
      GoodPrefix(lines[..|lines| - 1], parse);
    }
  }

  /** Good records followed by a bad one stay the good prefix however the file goes on. */
  lemma {:induction false} GoodStops(lines: seq<seq<Byte>>, more: seq<seq<Byte>>, parse: seq<Byte> -> bool)
    requires Good(lines, parse) == lines && more != [] && !Acceptable(more[0], parse)
    ensures Good(lines + more, parse) == lines
  {
    var all := lines + more;
    if |more| == 1 {
      assert all[..|all| - 1] == lines;
    } else {
      GoodStops(lines, more[..|more| - 1], parse);
      assert all[..|all| - 1] == lines + more[..|more| - 1];
    }
  }

  lemma GoodNext(lines: seq<seq<Byte>>, line: seq<Byte>, parse: seq<Byte> -> bool)
    requires Good(lines, parse) == lines && Acceptable(line, parse)
    ensures Good(lines + [line], parse) == lines + [line]
    ensures line == [] ==> NonEmpty(lines + [line]) == NonEmpty(lines)
    ensures line != [] ==> NonEmpty(lines + [line]) == NonEmpty(lines) + [line]
  {
    assert (lines + [line])[..|lines + [line]| - 1] == lines;
  }

  /** A record that cannot be accepted, met after good ones, decides the whole interval. */
  lemma Refused(done: seq<Byte>, more: seq<Byte>, parse: seq<Byte> -> bool)
    requires Good(Lines(done), parse) == Lines(done) && |Tail(done)| > MAXIMUM_RECORD
    ensures !Readable(done + more, parse) && Good(Lines(done + more), parse) == Lines(done) && Overlong(done + more, parse)
  {
    hide Lines, Tail;
    LinesExtend(done, more);
    StopsAt(Lines(done), Lines(done + more), parse);
    hide Good;
  }

  lemma RefusedRecord(done: seq<Byte>, more: seq<Byte>, parse: seq<Byte> -> bool)
    requires Good(Lines(done), parse) == Lines(done) && !Acceptable(Tail(done), parse)
    ensures !Readable(done + [NEWLINE] + more, parse) && Good(Lines(done + [NEWLINE] + more), parse) == Lines(done)
    ensures Overlong(done + [NEWLINE] + more, parse) <==> |Tail(done)| > MAXIMUM_RECORD
  {
    hide Lines, Tail;
    AppendByte(done, NEWLINE);
    LinesExtend(done + [NEWLINE], more);
    var all := Lines(done + [NEWLINE] + more);
    assert all[|Lines(done)|] == Tail(done);
    assert Lines(done) <= Lines(done) + [Tail(done)] <= all;
    StopsAt(Lines(done), all, parse);
    hide Good;
  }

  lemma StopsAt(lines: seq<seq<Byte>>, all: seq<seq<Byte>>, parse: seq<Byte> -> bool)
    requires Good(lines, parse) == lines <= all && (|all| > |lines| ==> !Acceptable(all[|lines|], parse))
    ensures Good(all, parse) == lines
  {
    if |all| > |lines| {
      GoodStops(lines, all[|lines|..], parse);
      assert all == lines + all[|lines|..];
    } else {
      assert all == lines;
    }
  }

  // ---- The code

  /** RandomAccess.Read may return fewer bytes than asked for, but returns none only at the end of the file. */
  method ReadExactly(file: seq<Byte>, bytes: array<Byte>, count: nat, position: nat) returns (ok: bool)
    requires count <= bytes.Length
    modifies bytes
    ensures ok <==> count == 0 || position + count <= |file|
    ensures ok && count != 0 ==> bytes[..count] == file[position..position + count]
  {
    var read := 0;
    while read < count
      invariant read <= count && (read == 0 || position + read <= |file|)
      invariant read != 0 ==> bytes[..read] == file[position..position + read]
    {
      if position + read >= |file| {
        return false;
      }
      var wanted := if count - read <= |file| - position - read then count - read else |file| - position - read;
      var n: nat :| 1 <= n <= wanted;
      ghost var was := bytes[..];
      forall i | read <= i < read + n { bytes[i] := file[position + i]; }
      assert forall i :: 0 <= i < read ==> bytes[i] == was[i] == file[position + i];
      assert bytes[..read + n] == file[position..position + read + n];
      read := read + n;
    }
    return true;
  }

  /** The first record, without its newline, if it ends within the verification bound. */
  method Header(bytes: seq<Byte>) returns (failed: bool, header: Option<seq<Byte>>)
    ensures header.Some? <==> exists i :: 0 <= i < |bytes| && i < 8388608 && bytes[i] == NEWLINE
    ensures header.Some? ==> NEWLINE !in header.value && header.value + [NEWLINE] <= bytes
    ensures failed <==> header.None? && |bytes| > 8388608
  {
    var written := 0;
    var target := new Byte[HEADER_BYTES];
    while written < |bytes| && written < MAXIMUM_INTERVAL
      invariant written <= |bytes| && written <= MAXIMUM_INTERVAL && NEWLINE !in bytes[..written]
      decreases MAXIMUM_INTERVAL - written
    {
      var left := if |bytes| < MAXIMUM_INTERVAL then |bytes| - written else MAXIMUM_INTERVAL - written;
      var count := if left < HEADER_BYTES then left else HEADER_BYTES;
      var ok := ReadExactly(bytes, target, count, written);
      var newline := FirstNewline(target, 0, count);
      HeaderRun(bytes, written, newline, target[..count]);
      if newline < count {
        return false, Some(bytes[..written + newline]);
      }
      written := written + count;
    }
    return written == MAXIMUM_INTERVAL && |bytes| > MAXIMUM_INTERVAL, None;
  }

  lemma HeaderRun(bytes: seq<Byte>, written: nat, newline: nat, target: seq<Byte>)
    requires written + |target| <= |bytes| && target == bytes[written..written + |target|] && newline <= |target|
    requires NEWLINE !in bytes[..written] && NEWLINE !in target[..newline]
    ensures NEWLINE !in bytes[..written + newline]
    ensures newline < |target| ==> bytes[written + newline] == target[newline]
  {
    assert bytes[..written + newline] == bytes[..written] + target[..newline];
  }

  /** The position after the last complete record, if the unfinished one is short enough to look through. */
  method Capture(file: Option<File>) returns (failed: bool, boundary: Option<Boundary>)
    ensures file.None? ==> !failed && boundary == None
    ensures file.Some? ==> (failed <==> |Tail(file.value.bytes)| >= 8388608 && |file.value.bytes| > 8388608)
    ensures file.Some? && !failed ==>
              var position := |file.value.bytes| - |Tail(file.value.bytes)|;
              boundary == Some(Boundary(Key(file.value.metadata), position, Prefix(file.value.bytes, position)))
  {
    if file.None? {
      return false, None;
    }
    var bytes := file.value.bytes;
    var position := |bytes|;
    if position != 0 && bytes[position - 1] != NEWLINE {
      var start := if position < MAXIMUM_INTERVAL then 0 else position - MAXIMUM_INTERVAL;
      var newline := position;
      while newline > start && bytes[newline - 1] != NEWLINE
        invariant start <= newline <= position && NEWLINE !in bytes[newline..]
      {
        newline := newline - 1;
      }
      TailFrom(bytes, newline);
      if newline == start && start != 0 {
        return true, None;
      }
      position := newline;
    }
    return false, Some(Boundary(Key(file.value.metadata), position, Prefix(bytes, position)));
  }

  lemma TailFrom(bytes: seq<Byte>, start: nat)
    requires start <= |bytes| && NEWLINE !in bytes[start..]
    ensures |Tail(bytes)| >= |bytes| - start
    ensures start == 0 || bytes[start - 1] == NEWLINE ==> |Tail(bytes)| == |bytes| - start
  {
    AppendRun(bytes[..start], bytes[start..]);
    assert bytes == bytes[..start] + bytes[start..];
  }

  /** The records completed after the boundary, in order, up to the first that is too long or does not parse. */
  method Since(file: Option<File>, boundary: Option<Boundary>, parse: seq<Byte> -> bool)
    returns (delivered: seq<seq<Byte>>, read: nat, outcome: Outcome)
    ensures file.None? ==> delivered == [] && outcome == if boundary.None? then Finished else Missing
    ensures file.Some? ==> (outcome == Lost <==> boundary.Some? && !Holds(file.value, boundary.value))
    ensures file.Some? && outcome == Lost ==> delivered == []
    ensures file.Some? && outcome != Lost ==>
              var interval := file.value.bytes[if boundary.None? then 0 else boundary.value.position..];
              && delivered == NonEmpty(Good(Lines(interval), parse))
              && (outcome == Finished <==> Readable(interval, parse))
              && (outcome == TooLong <==> !Readable(interval, parse) && Overlong(interval, parse))
              && (outcome == Finished ==> read == |interval|)
  {
    delivered, read := [], 0;
    if file.None? {
      return delivered, read, if boundary.None? then Finished else Missing;
    }
    var bytes := file.value.bytes;
    if boundary.Some? && !Holds(file.value, boundary.value) {
      return delivered, read, Lost;
    }
    var origin := if boundary.None? then 0 else boundary.value.position;
    delivered, read, outcome := Scan(bytes, origin, parse);
  }

  method Scan(bytes: seq<Byte>, origin: nat, parse: seq<Byte> -> bool) returns (delivered: seq<seq<Byte>>, read: nat, outcome: Outcome)
    requires origin <= |bytes|
    ensures delivered == NonEmpty(Good(Lines(bytes[origin..]), parse))
    ensures outcome == Finished || outcome == TooLong || outcome == Unreadable
    ensures outcome == Finished <==> Readable(bytes[origin..], parse)
    ensures outcome == TooLong <==> !Readable(bytes[origin..], parse) && Overlong(bytes[origin..], parse)
    ensures outcome == Finished ==> read == |bytes[origin..]|
  {
    delivered, read, outcome := [], 0, Finished;
    var position := origin;
    var line := [];
    var chunk := new Byte[CHUNK_BYTES];
    assert bytes[origin..position] == [];
    assert Scanned([], line, delivered, parse);
    while position < |bytes|
      invariant origin <= position <= |bytes| && read == position - origin && outcome == Finished
      invariant Scanned(bytes[origin..position], line, delivered, parse)
      decreases |bytes| - position
    {
      hide Scanned, Readable, Lines, Good, NonEmpty, Overlong;
      var count := if |bytes| - position < CHUNK_BYTES then |bytes| - position else CHUNK_BYTES;
      var ok := ReadExactly(bytes, chunk, count, position);
      read := read + count;
      line, delivered, outcome := ScanChunk(bytes, origin, position, chunk, count, line, delivered, parse);
      if outcome != Finished {
        return;
      }
      position := position + count;
    }
    assert bytes[origin..position] == bytes[origin..];
  }

  /** What the loops have established about the bytes they have consumed. */
  ghost predicate Scanned(done: seq<Byte>, line: seq<Byte>, delivered: seq<seq<Byte>>, parse: seq<Byte> -> bool) {
    && line == Tail(done) && |line| <= MAXIMUM_RECORD
    && Good(Lines(done), parse) == Lines(done)
    && delivered == NonEmpty(Lines(done))
  }

  /** One chunk: runs between newlines lengthen the line, a newline completes it. */
  method ScanChunk(ghost bytes: seq<Byte>, ghost origin: nat, ghost base: nat, chunk: array<Byte>, count: nat,
                   begun: seq<Byte>, earlier: seq<seq<Byte>>, parse: seq<Byte> -> bool)
    returns (line: seq<Byte>, delivered: seq<seq<Byte>>, outcome: Outcome)
    requires origin <= base && base + count <= |bytes| && count <= chunk.Length && chunk[..count] == bytes[base..base + count]
    requires Scanned(bytes[origin..base], begun, earlier, parse)
    ensures outcome == Finished ==> Scanned(bytes[origin..base + count], line, delivered, parse)
    ensures outcome != Finished ==>
              && (outcome == TooLong || outcome == Unreadable)
              && !Readable(bytes[origin..], parse) && delivered == NonEmpty(Good(Lines(bytes[origin..]), parse))
              && (outcome == TooLong <==> Overlong(bytes[origin..], parse))
  {
    hide Scanned, Readable, Lines, Good, NonEmpty, Tail, Overlong;
    line, delivered, outcome := begun, earlier, Finished;
    var start := 0;
    while start < count
      invariant 0 <= start <= count && outcome == Finished
      invariant Scanned(bytes[origin..base + start], line, delivered, parse)
    {
      var stop := FirstNewline(chunk, start, count);
      ChunkRun(bytes, base, chunk, count, start, stop);
      ScanRun(bytes, origin, base + start, base + stop, line, delivered, parse);
      if |line| + stop - start > MAXIMUM_RECORD {
        return line, delivered, TooLong;
      }
      line := line + chunk[start..stop];
      if stop == count {
        start := count;
      } else {
        if line != [] && !parse(line) {
          ScanRefused(bytes, origin, base + stop, line, delivered, parse);
          return line, delivered, Unreadable;
        }
        ScanNewline(bytes, origin, base + stop, line, delivered, parse);
        if line != [] {
          delivered := delivered + [line];
        }
        line := [];
        start := stop + 1;
      }
    }
  }

  lemma ChunkRun(bytes: seq<Byte>, base: nat, chunk: array<Byte>, count: nat, start: nat, stop: nat)
    requires base + count <= |bytes| && start <= stop <= count <= chunk.Length && chunk[..count] == bytes[base..base + count]
    ensures chunk[start..stop] == bytes[base + start..base + stop] && (stop < count ==> chunk[stop] == bytes[base + stop])
  {
    forall k | 0 <= k < count ensures chunk[k] == bytes[base + k] {
      assert chunk[..count][k] == bytes[base..base + count][k];
    }
  }

  lemma ScanRun(bytes: seq<Byte>, origin: nat, from: nat, to: nat, line: seq<Byte>, delivered: seq<seq<Byte>>, parse: seq<Byte> -> bool)
    requires origin <= from <= to <= |bytes| && NEWLINE !in bytes[from..to]
    requires Scanned(bytes[origin..from], line, delivered, parse)
    ensures if |line| + to - from <= MAXIMUM_RECORD then Scanned(bytes[origin..to], line + bytes[from..to], delivered, parse)
            else !Readable(bytes[origin..], parse) && delivered == NonEmpty(Good(Lines(bytes[origin..]), parse)) && Overlong(bytes[origin..], parse)
  {
    Advance(bytes, origin, from, to);
    if |line| + to - from > MAXIMUM_RECORD {
      Refused(bytes[origin..to], bytes[to..], parse);
      assert bytes[origin..to] + bytes[to..] == bytes[origin..];
    }
    hide Lines, Tail, Good, NonEmpty, Readable, Overlong;
  }

  lemma ScanNewline(bytes: seq<Byte>, origin: nat, at: nat, line: seq<Byte>, delivered: seq<seq<Byte>>, parse: seq<Byte> -> bool)
    requires origin <= at < |bytes| && bytes[at] == NEWLINE && Scanned(bytes[origin..at], line, delivered, parse)
    requires line == [] || parse(line)
    ensures line == [] ==> Scanned(bytes[origin..at + 1], [], delivered, parse)
    ensures line != [] ==> Scanned(bytes[origin..at + 1], [], delivered + [line], parse)
  {
    hide Lines, Tail, Good, NonEmpty;
    AdvanceNewline(bytes, origin, at);
    GoodNext(Lines(bytes[origin..at]), line, parse);
  }

  lemma ScanRefused(bytes: seq<Byte>, origin: nat, at: nat, line: seq<Byte>, delivered: seq<seq<Byte>>, parse: seq<Byte> -> bool)
    requires origin <= at < |bytes| && bytes[at] == NEWLINE && Scanned(bytes[origin..at], line, delivered, parse)
    requires line != [] && !parse(line)
    ensures !Readable(bytes[origin..], parse) && delivered == NonEmpty(Good(Lines(bytes[origin..]), parse)) && !Overlong(bytes[origin..], parse)
  {
    hide Lines, Tail, Good, NonEmpty, Readable, Overlong;
    RefusedRecord(bytes[origin..at], bytes[at + 1..], parse);
    assert bytes[origin..at] + [NEWLINE] + bytes[at + 1..] == bytes[origin..];
  }

  lemma Advance(bytes: seq<Byte>, origin: nat, from: nat, to: nat)
    requires origin <= from <= to <= |bytes| && NEWLINE !in bytes[from..to]
    ensures Lines(bytes[origin..to]) == Lines(bytes[origin..from])
    ensures Tail(bytes[origin..to]) == Tail(bytes[origin..from]) + bytes[from..to]
  {
    AppendRun(bytes[origin..from], bytes[from..to]);
    assert bytes[origin..to] == bytes[origin..from] + bytes[from..to];
  }

  lemma AdvanceNewline(bytes: seq<Byte>, origin: nat, at: nat)
    requires origin <= at < |bytes| && bytes[at] == NEWLINE
    ensures Lines(bytes[origin..at + 1]) == Lines(bytes[origin..at]) + [Tail(bytes[origin..at])]
    ensures Tail(bytes[origin..at + 1]) == []
  {
    AppendByte(bytes[origin..at], NEWLINE);
    assert bytes[origin..at + 1] == bytes[origin..at] + [NEWLINE];
  }

  // ---- Captured boundaries divide a growing file

  lemma {:induction false} NonEmptyConcat(lines: seq<seq<Byte>>, more: seq<seq<Byte>>)
    ensures NonEmpty(lines + more) == NonEmpty(lines) + NonEmpty(more)
  {
    if more == [] {
      assert lines + more == lines;
    } else {
      NonEmptyConcat(lines, more[..|more| - 1]);
      assert (lines + more)[..|lines + more| - 1] == lines + more[..|more| - 1];
    }
  }

  /** The end of the last complete record. */
  function Complete(bytes: seq<Byte>): nat {
    |bytes| - |Tail(bytes)|
  }

  lemma CompleteEnds(bytes: seq<Byte>)
    ensures Tail(bytes[..Complete(bytes)]) == [] && Lines(bytes[..Complete(bytes)]) == Lines(bytes)
  {
    SplitJoins(bytes);
    NoNewlines(bytes);
    JoinSplits(Lines(bytes));
    assert bytes[..Complete(bytes)] == Joined(Lines(bytes));
  }

  /**
   * A file that only grows, read from a boundary captured earlier: exactly the records not complete at the
   * capture, whatever the chunks and the short reads were, and the boundary still holds for the file.
   */
  lemma {:induction false} CaptureThenSince(metadata: Metadata, earlier: seq<Byte>, added: seq<Byte>)
    ensures var bytes := earlier + added; var position := Complete(earlier);
            && Holds(File(metadata, bytes), Boundary(Key(metadata), position, Prefix(earlier, position)))
            && Lines(bytes) == Lines(earlier) + Lines(bytes[position..]) && Tail(bytes[position..]) == Tail(bytes)
            && NonEmpty(Lines(bytes)) == NonEmpty(Lines(earlier)) + NonEmpty(Lines(bytes[position..]))
  {
    var bytes, position := earlier + added, Complete(earlier);
    assert bytes[..position] == earlier[..position];
    assert Prefix(bytes, position) == Prefix(earlier, position);
    CompleteEnds(earlier);
    SplitAt(bytes[..position], bytes[position..]);
    assert bytes == bytes[..position] + bytes[position..];
    NonEmptyConcat(Lines(earlier), Lines(bytes[position..]));
  }

  /** Reading at each capture from the previous one divides the records: none is missed and none comes twice. */
  lemma {:induction false} IntervalsPartition(first: seq<Byte>, second: seq<Byte>, third: seq<Byte>)
    requires first <= second <= third
    ensures var later := second[Complete(first)..]; var last := third[Complete(second)..];
            && Complete(first) <= Complete(second)
            && Lines(third) == Lines(first) + Lines(later) + Lines(last)
            && NonEmpty(Lines(third)) == NonEmpty(Lines(first)) + NonEmpty(Lines(later)) + NonEmpty(Lines(last))
  {
    var m := Metadata(0, 0, 0);
    assert second == first + second[|first|..];
    assert third == second + third[|second|..];
    CaptureThenSince(m, first, second[|first|..]);
    CaptureThenSince(m, second, third[|second|..]);
    assert |second[Complete(first)..]| >= |Tail(second[Complete(first)..])|;
  }

  /** A boundary is never taken for one of another file. */
  lemma BoundaryIsForItsFile(file: File, other: Metadata, position: nat, prefix: seq<Byte>)
    requires Narrow(file.metadata) && Narrow(other) && Holds(file, Boundary(Key(other), position, prefix))
    ensures file.metadata == other && position <= |file.bytes|
  {
    KeyInjective(file.metadata, other);
  }

  /**
   * A boundary captured from one file holds for a later one exactly when that is the same file, no shorter than the
   * boundary, and the same in the first 256 bytes before it: anything rewritten there is noticed, and nothing else.
   */
  lemma {:induction false} HoldsExactly(earlier: File, later: File)
    requires Narrow(earlier.metadata) && Narrow(later.metadata)
    ensures var position := Complete(earlier.bytes);
            Holds(later, Boundary(Key(earlier.metadata), position, Prefix(earlier.bytes, position))) <==>
            && later.metadata == earlier.metadata && |later.bytes| >= position
            && forall i :: 0 <= i < position && i < 256 ==> later.bytes[i] == earlier.bytes[i]
  {
    KeyInjective(earlier.metadata, later.metadata);
    hide Key, Tail, Narrow;
    var position := Complete(earlier.bytes);
    if |later.bytes| >= position {
      var a, b := Prefix(earlier.bytes, position), Prefix(later.bytes, position);
      assert a == b ==> forall i :: 0 <= i < |a| ==> a[i] == earlier.bytes[i] && b[i] == later.bytes[i];
    }
  }
}
