/**
 * DiagnosticStore.cs: a log partitioned into one file per day, appended by Write and reduced by Prune to the
 * retention period. A file is its bytes; Codec stands for the escaping of the JSON writer and the reader of a
 * record's timestamp.
 */
module DiagnosticStore {
  import opened Prelude
  import opened Records
  import opened Text

  const MAXIMUM_RECORD := 524288
  const CHUNK_BYTES := 65536
  const DAY := 86400000
  const LAST_CLOCK := 253402300799999     // the end of the year 9999

  datatype Codec = Codec(escape: Unit -> seq<Byte>, time: seq<Byte> -> Option<int>)

  function Digits(n: nat): seq<Byte> {
    if n < 10 then [48 + n] else Digits(n / 10) + [48 + n % 10]
  }

  function Escaped(units: seq<Unit>, codec: Codec): seq<Byte> {
    if units == [] then [] else Escaped(units[..|units| - 1], codec) + codec.escape(units[|units| - 1])
  }

  const AT: seq<Byte> := Ascii("{\"at\":")
  const MESSAGE: seq<Byte> := Ascii(",\"message\":\"")
  const END: seq<Byte> := [34, 125]

  function Record(at: nat, units: seq<Unit>, codec: Codec): seq<Byte> {
    AT + Digits(at) + MESSAGE + Escaped(units, codec) + END
  }

  /** The text that the decoder adds for a piece, after it was given the bytes before. */
  function Decoded(before: seq<Byte>, piece: seq<Byte>): (units: seq<Unit>)
    ensures Whole(before + piece) == Whole(before) + units
    ensures |units| <= |piece| + 2
  {
    WholeGrows(before, piece);
    Whole(before + piece)[|Whole(before)|..]
  }

  // ---- A reader of records

  function ReadDigits(bytes: seq<Byte>, n: nat): (nat, seq<Byte>) {
    if bytes != [] && 48 <= bytes[0] < 58 then ReadDigits(bytes[1..], 10 * n + Over(bytes[0], 48)) else (n, bytes)
  }

  /** The time and the message of {"at":N,"message":"..."}. */
  function ReadRecord(line: seq<Byte>): Option<(nat, seq<Unit>)> {
    ReadBetween(Ascii("{\"at\":"), Ascii(",\"message\":\""), line)
  }

  function ReadBetween(opening: seq<Byte>, middle: seq<Byte>, line: seq<Byte>): Option<(nat, seq<Unit>)> {
    if !(opening <= line) then None
    else
      var (at, rest) := ReadDigits(line[|opening|..], 0);
      if |rest| >= |line| - |opening| || !(middle <= rest) then None
      else
        var body := ReadString(rest[|middle|..]);
        if body.Some? && body.value.1 == [125] then Some((at, body.value.0)) else None
  }

  /** The escapes are those of JSON, and the timestamp of a record is the number it holds. */
  ghost predicate Fits(codec: Codec) {
    && (forall u: Unit :: ReadsAs(codec.escape(u), [u]))
    && (forall line :: ReadRecord(line).Some? ==> codec.time(line) == Some(ReadRecord(line).value.0))
  }

  lemma {:induction false} DigitsRead(n: nat, rest: seq<Byte>)
    ensures |Digits(n)| > 0 && ReadDigits(Digits(n) + rest, 0) == ReadDigits(rest, n)
  {
    if n >= 10 {
      var digit := [48 + n % 10];
      DigitsRead(n / 10, digit + rest);
      assert Digits(n) + rest == Digits(n / 10) + (digit + rest);
      assert (digit + rest)[1..] == rest;
    } else {
      assert (Digits(n) + rest)[1..] == rest;
    }
  }

  lemma {:induction false} EscapedReads(units: seq<Unit>, codec: Codec, rest: seq<Byte>)
    requires Fits(codec) && ReadString(rest).Some?
    ensures ReadString(Escaped(units, codec) + rest) == Some((units + ReadString(rest).value.0, ReadString(rest).value.1))
  {
    if units == [] {
      assert Escaped(units, codec) + rest == rest;
      assert units + ReadString(rest).value.0 == ReadString(rest).value.0;
    } else {
      var init, last := units[..|units| - 1], units[|units| - 1];
      assert ReadsAs(codec.escape(last), [last]);
      hide *;
      EscapedRegroups(units, codec, rest, if ReadString(rest).Some? then ReadString(rest).value.0 else []);
      ReadsNext(codec.escape(last), [last], rest);
      EscapedReads(init, codec, codec.escape(last) + rest);
    }
  }

  lemma EscapedRegroups(units: seq<Unit>, codec: Codec, rest: seq<Byte>, after: seq<Unit>)
    requires units != []
    ensures var init, last := units[..|units| - 1], units[|units| - 1];
            Escaped(units, codec) + rest == Escaped(init, codec) + (codec.escape(last) + rest) && init + ([last] + after) == units + after
  {
  }

  /** Every record reads as the time and the text it was written with. */
  lemma {:induction false} RecordReads(at: nat, units: seq<Unit>, codec: Codec)
    requires Fits(codec)
    ensures ReadRecord(Record(at, units, codec)) == Some((at, units))
  {
    assert ReadString(END) == Some(([], [125])) by {
      assert END[1..] == [125];
    }
    hide Fits, ReadString, Escaped, Digits, ReadBetween;
    EscapedReads(units, codec, END);
    assert units + [] == units;
    Literals();
    hide AT, MESSAGE, END;
    ReadsBetween(AT, at, MESSAGE, Escaped(units, codec) + END);
    assert Record(at, units, codec) == AT + Digits(at) + MESSAGE + (Escaped(units, codec) + END);
  }

  lemma Literals()
    ensures AT == Ascii("{\"at\":") && MESSAGE == Ascii(",\"message\":\"") && |AT| + |MESSAGE| + |END| == 20 && MESSAGE != [] && MESSAGE[0] == 44
    ensures NEWLINE !in AT && NEWLINE !in MESSAGE && NEWLINE !in END
  {
  }

  lemma ReadsBetween(opening: seq<Byte>, at: nat, middle: seq<Byte>, body: seq<Byte>)
    requires middle != [] && middle[0] == 44 && ReadString(body).Some? && ReadString(body).value.1 == [125]
    ensures ReadBetween(opening, middle, opening + Digits(at) + middle + body) == Some((at, ReadString(body).value.0))
  {
    hide ReadString, Digits;
    DigitsRead(at, middle + body);
    var line := opening + Digits(at) + middle + body;
    assert line[|opening|..] == Digits(at) + (middle + body);
    assert (middle + body)[0] == 44 && (middle + body)[|middle|..] == body;
  }

  lemma {:induction false} DigitsFit(n: nat, k: nat)
    requires n < Power(k) && k > 0
    ensures |Digits(n)| <= k && NEWLINE !in Digits(n)
  {
    if n >= 10 {
      Tenth(n, Power(k - 1));
      DigitsFit(n / 10, k - 1);
    }
  }

  lemma Tenth(n: nat, limit: nat)
    requires n < 10 * limit
    ensures n / 10 < limit
  {
  }

  function Power(k: nat): nat {
    if k == 0 then 1 else 10 * Power(k - 1)
  }

  lemma {:induction false} EscapedFits(units: seq<Unit>, codec: Codec)
    requires Fits(codec)
    ensures |Escaped(units, codec)| <= 6 * |units| && NEWLINE !in Escaped(units, codec)
  {
    if units != [] {
      EscapedFits(units[..|units| - 1], codec);
      ReadsAsShort(codec.escape(units[|units| - 1]), [units[|units| - 1]]);
    }
  }

  /** Write never produces a record that Trim would reject: its size check cannot fire. */
  lemma RecordFits(at: nat, before: seq<Byte>, piece: seq<Byte>, codec: Codec)
    requires Fits(codec) && |piece| <= 65536 && at <= 253402300799999
    ensures var r := Record(at, Decoded(before, piece), codec);
            0 < |r| <= 524288 && NEWLINE !in r && codec.time(r) == Some(at)
  {
    assert Power(15) == 1000000000000000 by {
      assert Power(5) == 100000;
      assert Power(10) == 10000000000;
    }
    DigitsFit(at, 15);
    EscapedFits(Decoded(before, piece), codec);
    RecordReads(at, Decoded(before, piece), codec);
    Literals();
    hide Power, Digits, Escaped, Whole, ReadRecord, AT, MESSAGE, END, Ascii, Decoded;
  }

  // ---- What the operations mean for records

  /** One record for each piece of the message, and one for an empty message. */
  function RecordsOf(at: nat, message: seq<Byte>, offset: nat, codec: Codec): seq<seq<Byte>>
    requires offset <= |message|
    decreases |message| - offset
  {
    if |message| - offset <= CHUNK_BYTES then [Record(at, Decoded(message[..offset], message[offset..]), codec)]
    else [Record(at, Decoded(message[..offset], message[offset..offset + CHUNK_BYTES]), codec)]
         + RecordsOf(at, message, offset + CHUNK_BYTES, codec)
  }

  predicate Parses(line: seq<Byte>, codec: Codec) {
    |line| <= MAXIMUM_RECORD && codec.time(line).Some?
  }

  predicate Sound(bytes: seq<Byte>, codec: Codec) {
    Tail(bytes) == [] && forall i :: 0 <= i < |Lines(bytes)| ==> Parses(Lines(bytes)[i], codec)
  }

  function Recent(lines: seq<seq<Byte>>, cutoff: int, codec: Codec): seq<seq<Byte>> {
    if lines == [] then []
    else
      var line := lines[|lines| - 1];
      Recent(lines[..|lines| - 1], cutoff, codec) +
      (if codec.time(line).Some? && codec.time(line).value >= cutoff then [line] else [])
  }

  type Files = map<int, seq<Byte>>

  function Append(files: Files, day: int, bytes: seq<Byte>): Files {
    files[day := (if day in files then files[day] else []) + bytes]
  }

  predicate ValidClock(at: int) {
    0 <= at <= LAST_CLOCK
  }

  function Written(files: Files, at: int, message: seq<Byte>, codec: Codec): Files {
    if ValidClock(at) then Append(files, at / DAY, Joined(RecordsOf(at, message, 0, codec))) else files
  }

  predicate Straddles(day: int, cutoff: int) {
    day * DAY < cutoff < (day + 1) * DAY
  }

  /** What Prune leaves of one day; None when the file is deleted. */
  function Left(day: int, bytes: seq<Byte>, cutoff: int, codec: Codec): Option<seq<Byte>> {
    if day * DAY >= cutoff then Some(bytes)
    else if (day + 1) * DAY <= cutoff then None
    else if !Sound(bytes, codec) then Some(bytes)
    else
      var kept := Joined(Recent(Lines(bytes), cutoff, codec));
      if kept == [] then None else Some(kept)
  }

  function Pruned(files: Files, cutoff: int, codec: Codec): Files {
    map day | day in files && Left(day, files[day], cutoff, codec).Some? :: Left(day, files[day], cutoff, codec).value
  }

  predicate Spoilt(files: Files, cutoff: int, codec: Codec) {
    exists day :: day in files && Straddles(day, cutoff) && !Sound(files[day], codec)
  }

  /** The same, when only the files in seen have been visited. */
  function PrunedIn(files: Files, seen: set<int>, cutoff: int, codec: Codec): Files {
    map day | day in files && (day in seen ==> Left(day, files[day], cutoff, codec).Some?) ::
      if day in seen then Left(day, files[day], cutoff, codec).value else files[day]
  }

  predicate SpoiltIn(files: Files, seen: set<int>, cutoff: int, codec: Codec) {
    exists day :: day in files && day in seen && Straddles(day, cutoff) && !Sound(files[day], codec)
  }

  lemma PrunedNext(files: Files, seen: set<int>, day: int, cutoff: int, codec: Codec)
    requires day in files && day !in seen
    ensures day in PrunedIn(files, seen, cutoff, codec) && PrunedIn(files, seen, cutoff, codec)[day] == files[day]
    ensures PrunedIn(files, seen + {day}, cutoff, codec) ==
            match Left(day, files[day], cutoff, codec)
            case None => PrunedIn(files, seen, cutoff, codec) - {day}
            case Some(bytes) => PrunedIn(files, seen, cutoff, codec)[day := bytes]
    ensures SpoiltIn(files, seen + {day}, cutoff, codec) ==
            (SpoiltIn(files, seen, cutoff, codec) || (Straddles(day, cutoff) && !Sound(files[day], codec)))
  {
    hide Left, Sound, Straddles;
  }

  lemma PrunedEnds(files: Files, cutoff: int, codec: Codec)
    ensures PrunedIn(files, {}, cutoff, codec) == files && !SpoiltIn(files, {}, cutoff, codec)
    ensures PrunedIn(files, files.Keys, cutoff, codec) == Pruned(files, cutoff, codec)
    ensures SpoiltIn(files, files.Keys, cutoff, codec) == Spoilt(files, cutoff, codec)
  {
    hide Left, Sound, Straddles;
  }

  /** A file is taken as sound exactly when it ends with a record and each has at most 524288 bytes and a time. */
  lemma SoundExactly(lines: seq<seq<Byte>>, codec: Codec)
    requires forall i :: 0 <= i < |lines| ==> NEWLINE !in lines[i]
    ensures Sound(Joined(lines), codec) <==> forall i :: 0 <= i < |lines| ==> |lines[i]| <= 524288 && codec.time(lines[i]).Some?
    ensures forall rest :: rest != [] && NEWLINE !in rest ==> !Sound(Joined(lines) + rest, codec)
  {
    JoinSplits(lines);
    forall rest: seq<Byte> | rest != [] && NEWLINE !in rest ensures !Sound(Joined(lines) + rest, codec) {
      AppendRun(Joined(lines), rest);
    }
    hide Lines, Tail, Joined;
  }

  // ---- The code

  class DiagnosticStore {
    const days: int
    const codec: Codec
    var files: Files
    var writeError: bool
    var cleanupError: bool
    var closed: bool

    constructor (days: int, codec: Codec)
      requires 1 <= days <= 104249991
      ensures this.days == days && this.codec == codec && files == map[] && !closed && !writeError && !cleanupError
    {
      this.days, this.codec := days, codec;
      files, writeError, cleanupError, closed := map[], false, false, false;
    }

    method Write(at: int, message: seq<Unit>)
      requires Fits(codec)
      modifies `files, `writeError
      ensures writeError == (closed || !ValidClock(at))
      ensures files == if closed then old(files) else Written(old(files), at, Utf8(message), codec)
    {
      if closed || at < 0 || at > LAST_CLOCK {
        writeError := true;
        return;
      }
      var stream := Compose(at, Utf8(message));
      files := Append(files, at / DAY, stream);
      writeError := false;
    }

    method Compose(at: nat, message: seq<Byte>) returns (stream: seq<Byte>)
      requires Fits(codec) && at <= LAST_CLOCK
      ensures stream == Joined(RecordsOf(at, message, 0, codec))
    {
      hide Record, Joined, RecordsOf;
      stream := [];
      var offset := 0;
      while offset < |message| || offset == 0
        invariant 0 <= offset <= |message| && (offset != 0 ==> offset < |message|)
        invariant Joined(RecordsOf(at, message, 0, codec)) == stream + Joined(RecordsOf(at, message, offset, codec))
        decreases |message| - offset
      {
        var length := if |message| - offset < CHUNK_BYTES then |message| - offset else CHUNK_BYTES;
        var output := Record(at, Decoded(message[..offset], message[offset..offset + length]), codec);
        RecordFits(at, message[..offset], message[offset..offset + length], codec);
        assert |output| <= MAXIMUM_RECORD;
        PieceWritten(at, message, offset, length, codec);
        stream := stream + (output + [NEWLINE]);
        if offset + length >= |message| {
          break;
        }
        offset := offset + CHUNK_BYTES;
      }
    }

    /** The records at or after the cutoff, or nothing at all when the file is not entirely sound. */
    method Trim(bytes: seq<Byte>, cutoff: int) returns (ok: bool, output: seq<Byte>)
      ensures ok <==> Sound(bytes, codec)
      ensures ok ==> output == Joined(Recent(Lines(bytes), cutoff, codec))
    {
      hide Lines, Tail, Recent, Joined, Sound;
      var buffer := new Byte[CHUNK_BYTES];
      var position := 0;
      var record := [];
      output, ok := [], true;
      TrimStart(bytes, cutoff, codec);
      while position < |bytes|
        invariant 0 <= position <= |bytes| && ok && Trimmed(bytes[..position], record, output, cutoff, codec)
        decreases |bytes| - position
      {
        var count: nat :| 1 <= count <= CHUNK_BYTES && position + count <= |bytes|;
        forall i | 0 <= i < count { buffer[i] := bytes[position + i]; }
        ok, record, output := TrimChunk(bytes, position, buffer, count, record, output, cutoff);
        if !ok {
          return;
        }
        position := position + count;
      }
      assert bytes[..position] == bytes;
      TrimEnd(bytes, record, output, cutoff, codec);
      ok := |record| == 0;
    }

    method TrimChunk(ghost bytes: seq<Byte>, ghost base: nat, buffer: array<Byte>, count: nat, begun: seq<Byte>, earlier: seq<Byte>, cutoff: int)
      returns (ok: bool, record: seq<Byte>, output: seq<Byte>)
      requires base + count <= |bytes| && count <= buffer.Length && forall i :: 0 <= i < count ==> buffer[i] == bytes[base + i]
      requires Trimmed(bytes[..base], begun, earlier, cutoff, codec)
      ensures if ok then Trimmed(bytes[..base + count], record, output, cutoff, codec) else !Sound(bytes, codec)
    {
      hide Lines, Tail, Recent, Joined, Sound, Trimmed;
      record, output, ok := begun, earlier, true;
      var start := 0;
      while start < count
        invariant 0 <= start <= count && ok && Trimmed(bytes[..base + start], record, output, cutoff, codec)
      {
        var stop := FirstNewline(buffer, start, count);
        assert buffer[start..stop] == bytes[base + start..base + stop];
        TrimRun(bytes, base + start, base + stop, record, output, cutoff, codec);
        if |record| + stop - start > MAXIMUM_RECORD {
          return false, record, output;
        }
        record := record + buffer[start..stop];
        if stop == count {
          start := count;
        } else {
          TrimNewline(bytes, base + stop, record, output, cutoff, codec);
          if codec.time(record).None? {
            return false, record, output;
          }
          if codec.time(record).value >= cutoff {
            output := output + record + [NEWLINE];
          }
          record := [];
          start := stop + 1;
        }
      }
    }

    method PruneFile(day: int, cutoff: int) returns (ok: bool)
      requires day in files
      modifies `files
      ensures ok <==> !(Straddles(day, cutoff) && !Sound(old(files)[day], codec))
      ensures match Left(day, old(files)[day], cutoff, codec)
              case None => files == old(files) - {day}
              case Some(bytes) => files == old(files)[day := bytes]
    {
      hide Sound, Recent, Joined, Lines;
      ok := true;
      var first := day * DAY;
      if first >= cutoff {
        assert files[day := files[day]] == files;
      } else if first + DAY <= cutoff {
        files := files - {day};
      } else {
        var output: seq<Byte>;
        ok, output := Trim(files[day], cutoff);
        if !ok {
          assert files[day := files[day]] == files;
        } else if |output| == 0 {
          files := files - {day};
        } else {
          files := files[day := output];
        }
      }
    }

    /** The files are visited in no particular order; one that fails is left as it was. */
    method PruneFiles(cutoff: int) returns (failed: bool)
      modifies `files
      ensures files == Pruned(old(files), cutoff, codec) && failed == Spoilt(old(files), cutoff, codec)
    {
      hide Left, Sound, Straddles, PrunedIn, SpoiltIn, Pruned, Spoilt;
      ghost var original := files;
      PrunedEnds(original, cutoff, codec);
      failed := false;
      var remaining := files.Keys;
      ghost var seen: set<int> := {};
      while remaining != {}
        invariant remaining + seen == original.Keys && remaining * seen == {}
        invariant files == PrunedIn(original, seen, cutoff, codec) && failed == SpoiltIn(original, seen, cutoff, codec)
        decreases |remaining|
      {
        SomeMember(remaining);
        var day :| day in remaining;
        PrunedNext(original, seen, day, cutoff, codec);
        remaining, seen := remaining - {day}, seen + {day};
        var pruned := PruneFile(day, cutoff);
        failed := failed || !pruned;
      }
    }

    method Prune(now: int) returns (ok: bool)
      modifies `files, `cleanupError
      ensures closed ==> !ok && files == old(files) && cleanupError == old(cleanupError)
      ensures !closed ==> files == Pruned(old(files), now - days * 86400000, codec)
      ensures !closed ==> ok == !Spoilt(old(files), now - days * 86400000, codec) && cleanupError == !ok
    {
      if closed {
        return false;
      }
      hide Pruned, Spoilt;
      var failed := PruneFiles(now - days * DAY);
      ok, cleanupError := !failed, failed;
    }

    method Dispose()
      modifies `closed
      ensures closed
    {
      closed := true;
    }
  }

  lemma PieceWritten(at: nat, message: seq<Byte>, offset: nat, length: nat, codec: Codec)
    requires offset <= |message| && length == if |message| - offset < CHUNK_BYTES then |message| - offset else CHUNK_BYTES
    ensures var r := Record(at, Decoded(message[..offset], message[offset..offset + length]), codec);
            Joined(RecordsOf(at, message, offset, codec)) ==
            r + [NEWLINE] + (if offset + length >= |message| then [] else Joined(RecordsOf(at, message, offset + CHUNK_BYTES, codec)))
  {
    var r := Record(at, Decoded(message[..offset], message[offset..offset + length]), codec);
    hide Record, Decoded, Whole;
    OneJoined(r);
    hide Joined;
    if offset + length >= |message| {
      assert message[offset..offset + length] == message[offset..];
    } else {
      var rest := RecordsOf(at, message, offset + CHUNK_BYTES, codec);
      assert RecordsOf(at, message, offset, codec) == [r] + rest;
      hide RecordsOf;
      JoinedAppend([r], rest);
    }
  }

  lemma OneJoined(line: seq<Byte>)
    ensures Joined([line]) == line + [NEWLINE]
  {
    assert [line][..0] == [];
  }

  // ---- The invariant of the trimming loops

  ghost predicate Trimmed(done: seq<Byte>, record: seq<Byte>, output: seq<Byte>, cutoff: int, codec: Codec) {
    && record == Tail(done) && |record| <= MAXIMUM_RECORD
    && (forall i :: 0 <= i < |Lines(done)| ==> Parses(Lines(done)[i], codec))
    && output == Joined(Recent(Lines(done), cutoff, codec))
  }

  lemma TrimStart(bytes: seq<Byte>, cutoff: int, codec: Codec)
    ensures Trimmed(bytes[..0], [], [], cutoff, codec)
  {
  }

  lemma TrimEnd(bytes: seq<Byte>, record: seq<Byte>, output: seq<Byte>, cutoff: int, codec: Codec)
    requires Trimmed(bytes, record, output, cutoff, codec)
    ensures Sound(bytes, codec) <==> record == []
    ensures output == Joined(Recent(Lines(bytes), cutoff, codec))
  {
  }

  lemma TrimRun(bytes: seq<Byte>, from: nat, to: nat, record: seq<Byte>, output: seq<Byte>, cutoff: int, codec: Codec)
    requires from <= to <= |bytes| && NEWLINE !in bytes[from..to] && Trimmed(bytes[..from], record, output, cutoff, codec)
    ensures if |record| + to - from <= MAXIMUM_RECORD then Trimmed(bytes[..to], record + bytes[from..to], output, cutoff, codec)
            else !Sound(bytes, codec)
  {
    hide Lines, Tail, Recent, Joined;
    AppendRun(bytes[..from], bytes[from..to]);
    assert bytes[..to] == bytes[..from] + bytes[from..to];
    if |record| + to - from > MAXIMUM_RECORD {
      LinesExtend(bytes[..to], bytes[to..]);
      assert bytes == bytes[..to] + bytes[to..];
      if |Lines(bytes)| > |Lines(bytes[..to])| {
        assert !Parses(Lines(bytes)[|Lines(bytes[..to])|], codec);
      }
    }
  }

  lemma TrimNewline(bytes: seq<Byte>, at: nat, record: seq<Byte>, output: seq<Byte>, cutoff: int, codec: Codec)
    requires at < |bytes| && bytes[at] == NEWLINE && Trimmed(bytes[..at], record, output, cutoff, codec)
    ensures codec.time(record).None? ==> !Sound(bytes, codec)
    ensures codec.time(record).Some? && codec.time(record).value < cutoff ==> Trimmed(bytes[..at + 1], [], output, cutoff, codec)
    ensures codec.time(record).Some? && codec.time(record).value >= cutoff ==>
              Trimmed(bytes[..at + 1], [], output + record + [NEWLINE], cutoff, codec)
  {
    hide Lines, Tail, Recent, Joined;
    AppendByte(bytes[..at], NEWLINE);
    assert bytes[..at + 1] == bytes[..at] + [NEWLINE];
    if codec.time(record).None? {
      LinesExtend(bytes[..at + 1], bytes[at + 1..]);
      assert bytes == bytes[..at + 1] + bytes[at + 1..];
      assert Lines(bytes[..at + 1])[|Lines(bytes[..at])|] == record;
      assert !Parses(Lines(bytes)[|Lines(bytes[..at])|], codec);
    } else {
      RecentNext(Lines(bytes[..at]), record, cutoff, codec);
    }
  }

  lemma RecentNext(lines: seq<seq<Byte>>, line: seq<Byte>, cutoff: int, codec: Codec)
    requires codec.time(line).Some?
    ensures Joined(Recent(lines + [line], cutoff, codec)) ==
            if codec.time(line).value >= cutoff then Joined(Recent(lines, cutoff, codec)) + line + [NEWLINE]
            else Joined(Recent(lines, cutoff, codec))
  {
    assert (lines + [line])[..|lines + [line]| - 1] == lines;
    var before := Recent(lines, cutoff, codec);
    if codec.time(line).value >= cutoff {
      assert (before + [line])[..|before|] == before;
    } else {
      assert before + [] == before;
    }
  }

  // ---- Retention over whole runs

  datatype Operation = Wrote(at: int, message: seq<Byte>) | Prunes(cutoff: int)

  /** The pieces cover the message in order: full ones of 65536 bytes, and a last one that is empty only for an empty message. */
  lemma {:induction false} PiecesCover(at: nat, message: seq<Byte>, offset: nat, codec: Codec, i: nat)
    requires offset <= |message| && i < |RecordsOf(at, message, offset, codec)|
    ensures var from := offset + i * 65536; var records := RecordsOf(at, message, offset, codec);
            && from <= |message| && (from == |message| ==> i == 0)
            && (i == |records| - 1 <==> |message| - from <= 65536)
            && records[i] == Record(at, Decoded(message[..from], if i == |records| - 1 then message[from..] else message[from..from + 65536]), codec)
    decreases i
  {
    hide Record;
    if i > 0 {
      PiecesCover(at, message, offset + CHUNK_BYTES, codec, i - 1);
    }
  }

  /** The text of each piece. */
  function PiecesOf(message: seq<Byte>, offset: nat): seq<seq<Unit>>
    requires offset <= |message|
    decreases |message| - offset
  {
    if |message| - offset <= CHUNK_BYTES then [Decoded(message[..offset], message[offset..])]
    else [Decoded(message[..offset], message[offset..offset + CHUNK_BYTES])] + PiecesOf(message, offset + CHUNK_BYTES)
  }

  lemma {:induction false} RecordsRead(at: nat, message: seq<Byte>, offset: nat, codec: Codec)
    requires Fits(codec) && offset <= |message|
    ensures var records, pieces := RecordsOf(at, message, offset, codec), PiecesOf(message, offset);
            |records| == |pieces| > 0 && forall i :: 0 <= i < |records| ==> ReadRecord(records[i]) == Some((at, pieces[i]))
    decreases |message| - offset
  {
    hide Fits, Record, ReadRecord, Whole;
    if |message| - offset <= CHUNK_BYTES {
      RecordReads(at, Decoded(message[..offset], message[offset..]), codec);
    } else {
      RecordReads(at, Decoded(message[..offset], message[offset..offset + CHUNK_BYTES]), codec);
      RecordsRead(at, message, offset + CHUNK_BYTES, codec);
    }
  }

  /** The pieces put together are all of the message. */
  lemma {:induction false} PiecesJoin(message: seq<Byte>, offset: nat)
    requires offset <= |message|
    ensures Whole(message[..offset]) + Flatten(PiecesOf(message, offset)) == Whole(message)
    decreases |message| - offset
  {
    hide Whole, Flatten;
    if |message| - offset <= CHUNK_BYTES {
      assert message[..offset] + message[offset..] == message;
      var piece := Decoded(message[..offset], message[offset..]);
      FlattenFirst(piece, []);
      assert [piece] + [] == [piece] && piece + [] == piece;
      FlattenNothing<Unit>();
    } else {
      var piece := Decoded(message[..offset], message[offset..offset + CHUNK_BYTES]);
      assert message[..offset] + message[offset..offset + CHUNK_BYTES] == message[..offset + CHUNK_BYTES];
      PiecesJoin(message, offset + CHUNK_BYTES);
      FlattenFirst(piece, PiecesOf(message, offset + CHUNK_BYTES));
    }
  }

  /**
   * What a write adds to the file of its day reads back as the time and, put together, the text of the message,
   * apart from surrogates without their other half; every other file stays as it was.
   */
  lemma {:induction false} WriteReadsBack(files: Files, at: int, message: seq<Unit>, codec: Codec) returns (texts: seq<seq<Unit>>)
    requires Fits(codec) && forall day :: day in files ==> Tail(files[day]) == []
    ensures var after, day := Written(files, at, Utf8(message), codec), at / 86400000;
            if 0 <= at <= 253402300799999 then
              var before := if day in files then Lines(files[day]) else [];
              && after.Keys == files.Keys + {day} && (forall other :: other in files && other != day ==> after[other] == files[other])
              && |Lines(after[day])| == |before| + |texts| && before <= Lines(after[day]) && Tail(after[day]) == []
              && (forall i :: 0 <= i < |texts| ==> ReadRecord(Lines(after[day])[|before| + i]) == Some((at, texts[i])))
              && texts != [] && Flatten(texts) == Mended(message)
            else after == files
  {
    var bytes, day := Utf8(message), at / 86400000;
    texts := PiecesOf(bytes, 0);
    if 0 <= at <= 253402300799999 {
      RecordsRead(at, bytes, 0, codec);
      MessageJoins(message);
      hide Fits, RecordsOf, PiecesOf, ReadRecord, Lines, Tail, Flatten, Mended, Utf8;
      WriteLines(files, at, bytes, codec);
    }
  }

  lemma MessageJoins(message: seq<Unit>)
    ensures Flatten(PiecesOf(Utf8(message), 0)) == Mended(message)
  {
    var bytes := Utf8(message);
    hide PiecesOf, Utf8, Mended, Flatten;
    PiecesJoin(bytes, 0);
    assert bytes[..0] == [] && Whole([]) == [];
    WholeOfUtf8(message);
  }

  lemma WriteLines(files: Files, at: int, bytes: seq<Byte>, codec: Codec)
    requires Fits(codec) && ValidClock(at) && (at / DAY in files ==> Tail(files[at / DAY]) == [])
    ensures var after, day := Written(files, at, bytes, codec), at / DAY;
            && after == files[day := after[day]] && Tail(after[day]) == []
            && Lines(after[day]) == (if day in files then Lines(files[day]) else []) + RecordsOf(at, bytes, 0, codec)
  {
    var records := RecordsOf(at, bytes, 0, codec);
    var held := if at / DAY in files then files[at / DAY] else [];
    assert Tail([]) == [] && Lines([]) == [];
    RecordsFit(at, bytes, 0, codec);
    hide Lines, Tail, Joined, RecordsOf, Fits;
    JoinSplits(records);
    SplitAt(held, Joined(records));
  }

  /** A record that was written; index tells by which operation. */
  datatype Entry = Entry(index: nat, at: int, record: seq<Byte>)

  function RunOf(operations: seq<Operation>, codec: Codec): Files {
    if operations == [] then map[]
    else
      var files := RunOf(operations[..|operations| - 1], codec);
      match operations[|operations| - 1]
      case Wrote(at, message) => Written(files, at, message, codec)
      case Prunes(cutoff) => Pruned(files, cutoff, codec)
  }

  function Entries(index: nat, at: int, records: seq<seq<Byte>>): seq<Entry> {
    seq(|records|, i requires 0 <= i < |records| => Entry(index, at, records[i]))
  }

  /** Everything that was ever written, in order. */
  function History(operations: seq<Operation>, codec: Codec): seq<Entry> {
    if operations == [] then []
    else
      var index := |operations| - 1;
      match operations[index]
      case Wrote(at, message) =>
        if ValidClock(at) then History(operations[..index], codec) + Entries(index, at, RecordsOf(at, message, 0, codec))
        else History(operations[..index], codec)
      case Prunes(_) => History(operations[..index], codec)
  }

  /** No cleanup after the record was written has a cutoff beyond its time. */
  predicate Survives(operations: seq<Operation>, e: Entry) {
    forall i :: e.index < i < |operations| && operations[i].Prunes? ==> operations[i].cutoff <= e.at
  }

  /** The surviving records of one day, in the order in which they were written. */
  function Kept(history: seq<Entry>, operations: seq<Operation>, day: int): seq<seq<Byte>> {
    if history == [] then []
    else
      var last := history[|history| - 1];
      var before := Kept(history[..|history| - 1], operations, day);
      if last.at / DAY == day && Survives(operations, last) then before + [last.record] else before
  }

  ghost predicate EntryFits(e: Entry, operations: nat, codec: Codec) {
    && e.index < operations && e.at >= 0 && NEWLINE !in e.record
    && 0 < |e.record| <= MAXIMUM_RECORD && codec.time(e.record) == Some(e.at)
  }

  lemma {:induction false} RecordsFit(at: nat, message: seq<Byte>, offset: nat, codec: Codec)
    requires Fits(codec) && at <= LAST_CLOCK && offset <= |message|
    ensures var records := RecordsOf(at, message, offset, codec);
            records != [] && forall i :: 0 <= i < |records| ==> EntryFits(Entry(0, at, records[i]), 1, codec)
    decreases |message| - offset
  {
    hide Record;
    if |message| - offset <= CHUNK_BYTES {
      RecordFits(at, message[..offset], message[offset..], codec);
    } else {
      RecordFits(at, message[..offset], message[offset..offset + CHUNK_BYTES], codec);
      RecordsFit(at, message, offset + CHUNK_BYTES, codec);
    }
    hide Fits;
  }

  lemma {:induction false} HistoryFits(operations: seq<Operation>, codec: Codec)
    requires Fits(codec)
    ensures forall i :: 0 <= i < |History(operations, codec)| ==> EntryFits(History(operations, codec)[i], |operations|, codec)
  {
    if operations != [] {
      HistoryFits(operations[..|operations| - 1], codec);
      var last := operations[|operations| - 1];
      if last.Wrote? && ValidClock(last.at) { RecordsFit(last.at, last.message, 0, codec); }
      hide Fits, RecordsOf;
    }
  }

  lemma {:induction false} KeptConcat(history: seq<Entry>, more: seq<Entry>, operations: seq<Operation>, day: int)
    ensures Kept(history + more, operations, day) == Kept(history, operations, day) + Kept(more, operations, day)
  {
    if more == [] {
      assert history + more == history;
    } else {
      KeptConcat(history, more[..|more| - 1], operations, day);
      assert (history + more)[..|history + more| - 1] == history + more[..|more| - 1];
    }
  }

  /** A write changes nothing for the records before it. */
  lemma {:induction false} KeptBefore(history: seq<Entry>, operations: seq<Operation>, o: Operation, day: int)
    requires o.Wrote?
    ensures Kept(history, operations + [o], day) == Kept(history, operations, day)
  {
    if history != [] {
      KeptBefore(history[..|history| - 1], operations, o, day);
      assert forall i :: 0 <= i < |operations| ==> (operations + [o])[i] == operations[i];
    }
  }

  lemma {:induction false} KeptWritten(operations: seq<Operation>, at: int, records: seq<seq<Byte>>, day: int)
    requires operations != []
    ensures Kept(Entries(|operations| - 1, at, records), operations, day) == if at / DAY == day then records else []
  {
    if records != [] {
      var rest := records[..|records| - 1];
      KeptWritten(operations, at, rest, day);
      assert Entries(|operations| - 1, at, records)[..|records| - 1] == Entries(|operations| - 1, at, rest);
      assert rest + [records[|records| - 1]] == records;
    }
  }

  /** What one cleanup does to the records of a day, by the three ways in which Prune treats its file. */
  lemma {:induction false} KeptPruned(history: seq<Entry>, operations: seq<Operation>, cutoff: int, day: int, codec: Codec)
    requires forall i :: 0 <= i < |history| ==> EntryFits(history[i], |operations|, codec)
    ensures var kept, left := Kept(history, operations, day), Kept(history, operations + [Prunes(cutoff)], day);
            && left == Recent(kept, cutoff, codec)
            && (day * DAY >= cutoff ==> left == kept)
            && ((day + 1) * DAY <= cutoff ==> left == [])
  {
    if history != [] {
      KeptPruned(history[..|history| - 1], operations, cutoff, day, codec);
      SurvivesPrune(history[|history| - 1], operations, cutoff);
      assert EntryFits(history[|history| - 1], |operations|, codec);
      hide Survives;
      RecentSnoc(Kept(history[..|history| - 1], operations, day), history[|history| - 1].record, cutoff, codec);
    }
  }

  lemma SurvivesPrune(e: Entry, operations: seq<Operation>, cutoff: int)
    requires e.index < |operations|
    ensures Survives(operations + [Prunes(cutoff)], e) == (Survives(operations, e) && e.at >= cutoff)
  {
    var after := operations + [Prunes(cutoff)];
    assert after[|operations|] == Prunes(cutoff);
    assert forall i :: 0 <= i < |operations| ==> after[i] == operations[i];
  }

  lemma RecentSnoc(lines: seq<seq<Byte>>, line: seq<Byte>, cutoff: int, codec: Codec)
    requires codec.time(line).Some?
    ensures Recent(lines + [line], cutoff, codec) ==
            Recent(lines, cutoff, codec) + if codec.time(line).value >= cutoff then [line] else []
  {
    assert (lines + [line])[..|lines + [line]| - 1] == lines;
  }

  lemma {:induction false} KeptFits(history: seq<Entry>, operations: seq<Operation>, count: nat, day: int, codec: Codec)
    requires forall i :: 0 <= i < |history| ==> EntryFits(history[i], count, codec)
    ensures forall i :: 0 <= i < |Kept(history, operations, day)| ==>
              Parses(Kept(history, operations, day)[i], codec) && NEWLINE !in Kept(history, operations, day)[i]
  {
    if history != [] {
      KeptFits(history[..|history| - 1], operations, count, day, codec);
      assert EntryFits(history[|history| - 1], count, codec);
      hide Survives;
    }
  }

  /** The files of a run hold, for each day, the joined records of that day that survive; no more and no less. */
  ghost predicate Exact(files: Files, history: seq<Entry>, operations: seq<Operation>) {
    forall day :: DayExact(files, Kept(history, operations, day), day)
  }

  predicate DayExact(files: Files, kept: seq<seq<Byte>>, day: int) {
    if kept == [] then day !in files else day in files && files[day] == Joined(kept)
  }

  /**
   * Retention is a filter: after any writes and cleanups the files hold, byte for byte and in order, exactly the
   * records no cleanup has expired, and every cleanup succeeds.
   */
  lemma {:induction false} RetentionIsFilter(operations: seq<Operation>, codec: Codec)
    requires Fits(codec)
    ensures Exact(RunOf(operations, codec), History(operations, codec), operations)
    ensures forall cutoff :: !Spoilt(RunOf(operations, codec), cutoff, codec)
  {
    if operations != [] {
      var before, last := operations[..|operations| - 1], operations[|operations| - 1];
      assert operations == before + [last];
      RetentionIsFilter(before, codec);
      HistoryFits(before, codec);
      if last.Wrote? {
        WriteExact(before, last.at, last.message, codec);
      } else {
        PruneExact(RunOf(before, codec), History(before, codec), before, last.cutoff, codec);
      }
      hide Exact, RunOf, Pruned;
    }
    HistoryFits(operations, codec);
    ExactSound(RunOf(operations, codec), History(operations, codec), operations, codec);
  }

  lemma ExactSound(files: Files, history: seq<Entry>, operations: seq<Operation>, codec: Codec)
    requires Exact(files, history, operations)
    requires forall i :: 0 <= i < |history| ==> EntryFits(history[i], |operations|, codec)
    ensures forall day :: day in files ==> Sound(files[day], codec)
  {
    hide Kept, Lines, Tail, Joined, EntryFits;
    forall day | day in files ensures Sound(files[day], codec) {
      assert DayExact(files, Kept(history, operations, day), day);
      KeptFits(history, operations, |operations|, day, codec);
      JoinSplits(Kept(history, operations, day));
    }
  }

  /** What one write adds to the records of a day. */
  function Added(at: int, message: seq<Byte>, day: int, codec: Codec): seq<seq<Byte>> {
    if ValidClock(at) && at / DAY == day then RecordsOf(at, message, 0, codec) else []
  }

  lemma KeptAfterWrite(before: seq<Operation>, at: int, message: seq<Byte>, day: int, codec: Codec)
    ensures var operations := before + [Wrote(at, message)];
            Kept(History(operations, codec), operations, day) == Kept(History(before, codec), before, day) + Added(at, message, day, codec)
  {
    hide Kept, RecordsOf, History, Survives, Entries;
    var operations, history := before + [Wrote(at, message)], History(before, codec);
    var added := Entries(|before|, at, if ValidClock(at) then RecordsOf(at, message, 0, codec) else []);
    HistoryNext(before, at, message, codec);
    KeptBefore(history, before, Wrote(at, message), day);
    KeptConcat(history, added, operations, day);
    KeptWritten(operations, at, if ValidClock(at) then RecordsOf(at, message, 0, codec) else [], day);
  }

  lemma HistoryNext(before: seq<Operation>, at: int, message: seq<Byte>, codec: Codec)
    ensures History(before + [Wrote(at, message)], codec) ==
            History(before, codec) + Entries(|before|, at, if ValidClock(at) then RecordsOf(at, message, 0, codec) else [])
  {
    var operations := before + [Wrote(at, message)];
    assert operations[..|operations| - 1] == before && operations[|before|] == Wrote(at, message);
    hide RecordsOf;
  }

  lemma WriteExact(before: seq<Operation>, at: int, message: seq<Byte>, codec: Codec)
    requires Fits(codec) && Exact(RunOf(before, codec), History(before, codec), before)
    ensures var operations := before + [Wrote(at, message)]; Exact(RunOf(operations, codec), History(operations, codec), operations)
  {
    var operations := before + [Wrote(at, message)];
    assert operations[..|operations| - 1] == before;
    assert RunOf(operations, codec) == Written(RunOf(before, codec), at, message, codec);
    forall day ensures DayExact(RunOf(operations, codec), Kept(History(operations, codec), operations, day), day) {
      KeptAfterWrite(before, at, message, day, codec);
      hide RunOf, DayExact, Kept, Added;
      assert DayExact(RunOf(before, codec), Kept(History(before, codec), before, day), day);
      WriteDay(RunOf(before, codec), Kept(History(before, codec), before, day), at, message, day, codec);
    }
  }

  lemma WriteDay(files: Files, kept: seq<seq<Byte>>, at: int, message: seq<Byte>, day: int, codec: Codec)
    requires Fits(codec) && DayExact(files, kept, day)
    ensures DayExact(Written(files, at, message, codec), kept + Added(at, message, day, codec), day)
  {
    if ValidClock(at) {
      RecordsFit(at, message, 0, codec);
      JoinedAppend(kept, RecordsOf(at, message, 0, codec));
    }
    assert kept + [] == kept;
    hide RecordsOf, Fits;
  }

  lemma PruneExact(files: Files, history: seq<Entry>, operations: seq<Operation>, cutoff: int, codec: Codec)
    requires Exact(files, history, operations)
    requires forall i :: 0 <= i < |history| ==> EntryFits(history[i], |operations|, codec)
    ensures Exact(Pruned(files, cutoff, codec), history, operations + [Prunes(cutoff)])
  {
    ExactSound(files, history, operations, codec);
    forall day ensures DayExact(Pruned(files, cutoff, codec), Kept(history, operations + [Prunes(cutoff)], day), day) {
      PruneDay(files, history, operations, cutoff, day, codec);
    }
  }

  lemma {:induction false} PruneDay(files: Files, history: seq<Entry>, operations: seq<Operation>, cutoff: int, day: int, codec: Codec)
    requires Exact(files, history, operations) && (day in files ==> Sound(files[day], codec))
    requires forall i :: 0 <= i < |history| ==> EntryFits(history[i], |operations|, codec)
    ensures DayExact(Pruned(files, cutoff, codec), Kept(history, operations + [Prunes(cutoff)], day), day)
  {
    assert DayExact(files, Kept(history, operations, day), day);
    KeptPruned(history, operations, cutoff, day, codec);
    KeptFits(history, operations, |operations|, day, codec);
    JoinSplits(Kept(history, operations, day));
    hide Kept, Lines, Tail, EntryFits, Sound, Parses;
  }
}
