/**
 * MatrixNotices.cs: a notice split greedily into messages within the native size limit. The encoded size is that
 * of the JSON written by ProtocolJson.cs: String, counted in UTF-8 bytes.
 */
module MatrixNotices {
  import opened Prelude
  import opened Text

  const MAXIMUM_BYTES := 50000

  /** What Content writes around the text of a notice. */
  const OPENING: seq<Byte> := Ascii("{\"msgtype\":\"m.notice\",\"body\":\"")
  const CLOSING: seq<Byte> := [34] + Ascii(",\"org.crossfire.listener_notice\":true}")

  /** Their bytes. */
  const FRAME_BYTES := 69

  const MAXIMUM := MAXIMUM_BYTES - FRAME_BYTES

  /** The bytes of one character: short escapes, \\uXXXX for controls and lone surrogates, UTF-8 for the rest. */
  function Encoded(character: seq<Unit>): (bytes: seq<Byte>)
    requires IsCharacter(character)
    ensures 1 <= |bytes| <= 6
  {
    if |character| != 1 then Utf8Of(PointOf(character))
    else
      var u := character[0];
      if u == 34 || u == 92 then [92, u]
      else if u == 8 then [92, 98]
      else if u == 12 then [92, 102]
      else if u == 10 then [92, 110]
      else if u == 13 then [92, 114]
      else if u == 9 then [92, 116]
      else if u < 32 || High(u) || Low(u) then HexEscape(u)
      else Utf8Of(u)
  }

  /** Their number; 6 for what is no character. */
  function Bytes(character: seq<Unit>): (n: nat)
    ensures 1 <= n <= 6
  {
    if IsCharacter(character) then |Encoded(character)| else 6
  }

  function Size(characters: seq<seq<Unit>>): (n: nat)
    ensures n >= |characters|
  {
    if characters == [] then 0 else Size(characters[..|characters| - 1]) + Bytes(characters[|characters| - 1])
  }

  predicate AllCharacters(characters: seq<seq<Unit>>) {
    forall i :: 0 <= i < |characters| ==> IsCharacter(characters[i])
  }

  function Body(characters: seq<seq<Unit>>): seq<Byte>
    requires AllCharacters(characters)
  {
    if characters == [] then [] else Encoded(characters[0]) + Body(characters[1..])
  }

  lemma {:induction false} BodySize(characters: seq<seq<Unit>>)
    requires AllCharacters(characters)
    ensures |Body(characters)| == Size(characters)
  {
    if characters != [] {
      BodySize(characters[1..]);
      SizeConcat([characters[0]], characters[1..]);
      SizeSnoc([], characters[0]);
      assert characters == [characters[0]] + characters[1..];
      hide Encoded;
    }
  }

  lemma {:induction false} AllAreCharacters(text: seq<Unit>)
    ensures AllCharacters(Characters(text))
  {
    if text != [] {
      var first := if Pair(text) then text[..2] else text[..1];
      AllAreCharacters(text[|first|..]);
    }
  }

  /** The encoded notice. */
  function Notice(text: seq<Unit>): seq<Byte> {
    AllAreCharacters(text);
    OPENING + Body(Characters(text)) + CLOSING
  }

  predicate Fits(text: seq<Unit>) {
    |Notice(text)| <= MAXIMUM_BYTES
  }

  /** A way to divide characters into non-empty messages that fit. */
  ghost predicate Splits(groups: seq<seq<seq<Unit>>>, characters: seq<seq<Unit>>) {
    Flatten(groups) == characters && forall i :: 0 <= i < |groups| ==> groups[i] != [] && Size(groups[i]) <= MAXIMUM
  }

  // ---- The bytes read back

  lemma EncodedReads(c: seq<Unit>)
    requires IsCharacter(c)
    ensures ReadsAs(Encoded(c), c)
  {
    assert |c| == 1 ==> c == [c[0]];
    if |c| == 1 && (c[0] < 32 || c[0] == 34 || c[0] == 92 || Lone(c)) {
      HexEscapeReads(c[0]);
      hide HexEscape;
      forall rest ensures ReadCharacter(Encoded(c) + rest) == Some((c, |Encoded(c)|)) {
        if |Encoded(c)| == 2 { assert (Encoded(c) + rest)[1] == Encoded(c)[1]; }
      }
    } else {
      forall rest ensures ReadCharacter(Encoded(c) + rest) == Some((c, |Encoded(c)|)) {
        PointScalar(c);
        PointUnits(c);
        ReadsPoint(PointOf(c), rest);
        assert (Encoded(c) + rest)[0] == Encoded(c)[0];
      }
    }
  }

  /** And no shorter JSON reads as the character, so the count never makes a message smaller than it could be. */
  lemma {:induction false} EncodedShortest(c: seq<Unit>, bytes: seq<Byte>)
    requires IsCharacter(c) && ReadsAs(bytes, c)
    ensures |bytes| >= |Encoded(c)|
  {
    assert ReadCharacter(bytes + []) == Some((c, |bytes|));
    assert bytes + [] == bytes;
    if bytes[0] != 92 {
      var p := ReadPoint(bytes).value;
      assert UnitsOf(p.0) == c;
      PointLength(bytes);
      UnitsPoint(p.0);
      assert |c| == 1 ==> c[0] == p.0;
    }
  }

  lemma PointLength(bytes: seq<Byte>)
    requires ReadPoint(bytes).Some?
    ensures |Utf8Of(ReadPoint(bytes).value.0)| == ReadPoint(bytes).value.1
    ensures ReadPoint(bytes).value.0 < 0x80 ==> bytes[0] == ReadPoint(bytes).value.0
  {
  }

  lemma UnitsPoint(point: nat)
    requires Scalar(point)
    ensures IsCharacter(UnitsOf(point)) && !Lone(UnitsOf(point)) && PointOf(UnitsOf(point)) == point
  {
  }

  lemma {:induction false} BodyReads(characters: seq<seq<Unit>>, rest: seq<Byte>)
    requires AllCharacters(characters)
    ensures ReadString(Body(characters) + [34] + rest) == Some((Flatten(characters), rest))
    decreases |characters|
  {
    if characters == [] {
      assert ([34] + rest)[1..] == rest;
    } else {
      var first, others := characters[0], characters[1..];
      BodyReads(others, rest);
      EncodedReads(first);
      assert characters == [first] + others;
      hide *;
      FlattenFirst(first, others);
      var after := Body(others) + [34] + rest;
      ReadsNext(Encoded(first), first, after);
      BodyRegroups(characters, [34], rest);
    }
  }

  lemma BodyRegroups(characters: seq<seq<Unit>>, quote: seq<Byte>, rest: seq<Byte>)
    requires AllCharacters(characters) && characters != []
    ensures IsCharacter(characters[0]) && AllCharacters(characters[1..])
    ensures Body(characters) + quote + rest == Encoded(characters[0]) + (Body(characters[1..]) + quote + rest)
  {
    hide Encoded;
  }

  /** The text of a notice, from the JSON that the homeserver is sent. */
  function ReadNotice(bytes: seq<Byte>): Option<seq<Unit>> {
    var opening, closing := Ascii("{\"msgtype\":\"m.notice\",\"body\":\""), Ascii(",\"org.crossfire.listener_notice\":true}");
    if !(opening <= bytes) then None
    else
      var body := ReadString(bytes[|opening|..]);
      if body.Some? && body.value.1 == closing then Some(body.value.0) else None
  }

  lemma FrameRead()
    ensures OPENING == Ascii("{\"msgtype\":\"m.notice\",\"body\":\"") && CLOSING == [34] + Ascii(",\"org.crossfire.listener_notice\":true}")
    ensures |OPENING| + |CLOSING| == FRAME_BYTES
  {
  }

  /** Every text is the body that is read from its notice. */
  lemma {:induction false} NoticeReads(text: seq<Unit>)
    ensures ReadNotice(Notice(text)) == Some(text)
  {
    FrameRead();
    AllAreCharacters(text);
    CharactersProper(text);
    hide OPENING, CLOSING, Ascii, Characters, Flatten, Body, ReadString;
    var closing := Ascii(",\"org.crossfire.listener_notice\":true}");
    BodyReads(Characters(text), closing);
    assert Notice(text)[|OPENING|..] == Body(Characters(text)) + [34] + closing;
  }

  // ---- Characters survive splitting

  predicate Follows(first: seq<Unit>, second: seq<Unit>) {
    !(|first| == 1 && |second| >= 1 && High(first[0]) && Low(second[0]))
  }

  /** What Characters produces: single units and pairs, with no two singles that would form a pair. */
  ghost predicate Proper(characters: seq<seq<Unit>>) {
    && (forall i :: 0 <= i < |characters| ==> |characters[i]| == 1 || (|characters[i]| == 2 && Pair(characters[i])))
    && (forall i :: 0 <= i < |characters| - 1 ==> Follows(characters[i], characters[i + 1]))
  }

  lemma {:induction false} CharactersProper(text: seq<Unit>)
    ensures Proper(Characters(text)) && Flatten(Characters(text)) == text
    ensures text != [] ==> Characters(text) != [] && Characters(text)[0] != [] && Characters(text)[0][0] == text[0]
  {
    if text != [] {
      var first := if Pair(text) then text[..2] else text[..1];
      var rest := text[|first|..];
      CharactersProper(rest);
      var characters := Characters(rest);
      assert Characters(text) == [first] + characters;
      hide Flatten, Characters;
      FlattenFirst(first, characters);
      assert text == first + rest;
      ProperFirst(first, characters);
    }
  }

  lemma ProperFirst(first: seq<Unit>, rest: seq<seq<Unit>>)
    requires Proper(rest) && (|first| == 1 || (|first| == 2 && Pair(first))) && (rest != [] ==> Follows(first, rest[0]))
    ensures Proper([first] + rest)
  {
    var all := [first] + rest;
    assert forall i :: 0 < i < |all| ==> all[i] == rest[i - 1];
  }

  /** Put together again and read anew, proper characters are themselves: no pair is split or made by accident. */
  lemma {:induction false} ReadsBack(characters: seq<seq<Unit>>)
    requires Proper(characters)
    ensures Characters(Flatten(characters)) == characters
    ensures characters != [] ==> Flatten(characters) != [] && Flatten(characters)[0] == characters[0][0]
    decreases |characters|
  {
    if characters != [] {
      var first, rest := characters[0], characters[1..];
      assert Proper(rest) by {
        assert forall i :: 0 <= i < |rest| ==> rest[i] == characters[i + 1];
      }
      ReadsBack(rest);
      FlattenFirst(first, rest);
      assert characters == [first] + rest;
      var text := Flatten(characters);
      assert text == first + Flatten(rest) && text[|first|..] == Flatten(rest) && text[..|first|] == first;
      hide Flatten;
      if |first| == 1 && rest != [] {
        assert Follows(characters[0], characters[1]);
      }
      assert Pair(text) <==> |first| == 2;
    }
  }

  lemma ProperPart(characters: seq<seq<Unit>>, from: nat, to: nat)
    requires Proper(characters) && from <= to <= |characters|
    ensures Proper(characters[from..to])
  {
  }

  // ---- Fewest messages

  /**
   * Every division of the characters needs at least as many messages as were completed and one more, and one
   * that needs no more than that ends with at least as many characters as the message being filled.
   */
  ghost predicate Fewest(characters: seq<seq<Unit>>, completed: nat, filling: nat) {
    forall groups :: Splits(groups, characters) ==>
      && |groups| > completed
      && (|groups| == completed + 1 ==> |groups[completed]| >= filling)
  }

  lemma {:induction false} SizeConcat(a: seq<seq<Unit>>, b: seq<seq<Unit>>)
    ensures Size(a + b) == Size(a) + Size(b)
  {
    if b == [] {
      assert a + b == a;
    } else {
      SizeConcat(a, b[..|b| - 1]);
      assert (a + b)[..|a + b| - 1] == a + b[..|b| - 1];
    }
  }

  lemma SomeMessage(groups: seq<seq<seq<Unit>>>, characters: seq<seq<Unit>>)
    requires Splits(groups, characters)
    ensures characters != [] ==> groups != []
  {
  }

  lemma FirstCharacter(c: seq<Unit>)
    ensures Fewest([c], 0, 1)
  {
    forall groups | Splits(groups, [c]) ensures |groups| > 0 && (|groups| == 1 ==> |groups[0]| >= 1) {
      SomeMessage(groups, [c]);
    }
  }

  /** Without its last character a division is one of the characters before. */
  lemma Shorter(groups: seq<seq<seq<Unit>>>, characters: seq<seq<Unit>>, c: seq<Unit>) returns (before: seq<seq<seq<Unit>>>)
    requires Splits(groups, characters + [c])
    ensures groups != [] && Splits(before, characters)
    ensures var last := groups[|groups| - 1];
            last != [] && last[|last| - 1] == c && if |last| == 1 then before == groups[..|groups| - 1]
                                     else |before| == |groups| && before[|before| - 1] == last[..|last| - 1]
  {
    SomeMessage(groups, characters + [c]);
    var init, last := groups[..|groups| - 1], groups[|groups| - 1];
    assert Flatten(groups) == Flatten(init) + last;
    assert last[|last| - 1] == (Flatten(init) + last)[|characters|] == c;
    var shorter := last[..|last| - 1];
    assert Flatten(init) + shorter == (Flatten(init) + last)[..|characters|] == characters;
    if |last| == 1 {
      assert Flatten(init) + [] == Flatten(init);
      before := init;
    } else {
      FlattenSnoc(init, shorter);
      before := init + [shorter];
      SizeConcat(shorter, [c]);
      assert last == shorter + [c];
    }
  }

  lemma AppendFewest(characters: seq<seq<Unit>>, completed: nat, filling: nat, c: seq<Unit>)
    requires Fewest(characters, completed, filling)
    ensures Fewest(characters + [c], completed, filling + 1)
  {
    hide Splits, Flatten, Size, Bytes;
    forall groups | Splits(groups, characters + [c])
      ensures |groups| > completed && (|groups| == completed + 1 ==> |groups[completed]| >= filling + 1)
    {
      var before := Shorter(groups, characters, c);
      assert |before| > completed;
    }
  }

  lemma StartFewest(characters: seq<seq<Unit>>, completed: nat, filling: nat, c: seq<Unit>)
    requires Fewest(characters, completed, filling) && 0 < filling <= |characters|
    requires Size(characters[|characters| - filling..]) + Bytes(c) > MAXIMUM
    ensures Fewest(characters + [c], completed + 1, 1)
  {
    hide Splits, Flatten, Size, Bytes;
    forall groups | Splits(groups, characters + [c])
      ensures |groups| > completed + 1 && (|groups| == completed + 2 ==> |groups[completed + 1]| >= 1)
    {
      var before := Shorter(groups, characters, c);
      if |groups| == completed + 1 {
        assert |before| == |groups| && |before[completed]| >= filling;
        LongerSuffix(before, characters, filling);
        LastFits(groups, characters + [c]);
      }
    }
  }

  /** The last message of a division fits with its last character. */
  lemma LastFits(groups: seq<seq<seq<Unit>>>, characters: seq<seq<Unit>>)
    requires Splits(groups, characters) && groups != []
    ensures var last := groups[|groups| - 1]; last != [] && Size(last[..|last| - 1]) + Bytes(last[|last| - 1]) <= MAXIMUM
  {
    var last := groups[|groups| - 1];
    SizeSnoc(last[..|last| - 1], last[|last| - 1]);
    assert last == last[..|last| - 1] + [last[|last| - 1]];
  }

  /** The last message of a division is a suffix of the characters, and a longer suffix is no smaller. */
  lemma LongerSuffix(groups: seq<seq<seq<Unit>>>, characters: seq<seq<Unit>>, filling: nat)
    requires Splits(groups, characters) && groups != [] && filling <= |groups[|groups| - 1]|
    ensures filling <= |characters| && Size(groups[|groups| - 1]) >= Size(characters[|characters| - filling..])
  {
    var init, last := groups[..|groups| - 1], groups[|groups| - 1];
    assert characters == Flatten(init) + last;
    var k := |last| - filling;
    SizeConcat(last[..k], last[k..]);
    assert last == last[..k] + last[k..];
    assert characters[|characters| - filling..] == last[k..];
  }

  // ---- The code

  method Chunks(text: seq<Unit>) returns (result: seq<seq<Unit>>, ghost groups: seq<seq<seq<Unit>>>)
    ensures Flatten(result) == text
    ensures forall i :: 0 <= i < |result| ==> result[i] != [] && Fits(result[i])
    ensures |groups| == |result| && Flatten(groups) == Characters(text)
    ensures forall i :: 0 <= i < |result| ==> Characters(result[i]) == groups[i]
    ensures forall other :: Splits(other, Characters(text)) ==> |other| >= |result|
  {
    hide Characters, Flatten, Size, Splits, Fewest, Proper, Bytes;
    NoCharacters();
    result, groups := [], [];
    var selected: seq<Unit>, size: nat := [], 0;
    ghost var filling: seq<seq<Unit>> := [];
    ghost var done: seq<seq<Unit>> := [];
    CharactersProper(text);
    Begin(text);
    var index := 0;
    while index < |text|
      invariant 0 <= index <= |text| && Characters(text) == done + Characters(text[index..])
      invariant Progress(done, groups, result, filling, selected, size)
      invariant text[..index] == Flatten(done)
      decreases |text| - index
    {
      var length := if index + 1 < |text| && High(text[index]) && Low(text[index + 1]) then 2 else 1;
      var character := text[index..index + length];
      NextCharacter(text, index, length, done);
      var bytes := Bytes(character);
      if size + bytes > MAXIMUM {
        Completes(done, groups, result, filling, selected, size, character);
        result := result + [selected];
        groups := groups + [filling];
        selected, size, filling := character, bytes, [character];
      } else {
        Fills(done, groups, result, filling, selected, size, character);
        selected, size, filling := selected + character, size + bytes, filling + [character];
      }
      done := done + [character];
      index := index + length;
    }
    assert text[index..] == [] && text[..index] == text;
    assert done + [] == done;
    if filling == [] {
      EndsEmpty(text, done, groups, result, selected, size);
    } else {
      EndsFilled(text, done, groups, result, filling, selected, size);
    }
    if |selected| != 0 {
      result := result + [selected];
      groups := groups + [filling];
    }
  }

  /** What the loop has established about the characters it has consumed. */
  ghost predicate Progress(done: seq<seq<Unit>>, groups: seq<seq<seq<Unit>>>, result: seq<seq<Unit>>, filling: seq<seq<Unit>>,
                           selected: seq<Unit>, size: nat) {
    && Flatten(groups) + filling == done && selected == Flatten(filling) && size == Size(filling) <= MAXIMUM
    && |groups| == |result| && (forall i :: 0 <= i < |groups| ==> groups[i] != [] && Size(groups[i]) <= MAXIMUM && result[i] == Flatten(groups[i]))
    && (done == [] <==> filling == []) && (done == [] ==> groups == [])
    && (done != [] ==> Fewest(done, |groups|, |filling|))
  }

  lemma NoCharacters()
    ensures Characters([]) == []
  {
  }

  lemma Begin(text: seq<Unit>)
    ensures Progress([], [], [], [], [], 0) && text[..0] == Flatten([])
    ensures text[0..] == text && [] + Characters(text) == Characters(text)
  {
  }

  lemma NextCharacter(text: seq<Unit>, index: nat, length: nat, done: seq<seq<Unit>>)
    requires index < |text| && Characters(text) == done + Characters(text[index..]) && text[..index] == Flatten(done)
    requires length == if index + 1 < |text| && High(text[index]) && Low(text[index + 1]) then 2 else 1
    ensures var character := text[index..index + length];
            Characters(text) == (done + [character]) + Characters(text[index + length..]) && text[..index + length] == Flatten(done + [character])
  {
    var character, rest := text[index..index + length], text[index..];
    assert rest[..length] == character && rest[length..] == text[index + length..];
    assert Characters(rest) == [character] + Characters(rest[length..]);
    FlattenSnoc(done, character);
    assert text[..index + length] == text[..index] + character;
    assert done + ([character] + Characters(rest[length..])) == (done + [character]) + Characters(rest[length..]);
  }

  lemma Fills(done: seq<seq<Unit>>, groups: seq<seq<seq<Unit>>>, result: seq<seq<Unit>>, filling: seq<seq<Unit>>,
              selected: seq<Unit>, size: nat, c: seq<Unit>)
    requires Progress(done, groups, result, filling, selected, size) && size + Bytes(c) <= MAXIMUM
    ensures Progress(done + [c], groups, result, filling + [c], selected + c, size + Bytes(c))
  {
    FlattenSnoc(filling, c);
    SizeSnoc(filling, c);
    assert Flatten(groups) + (filling + [c]) == done + [c];
    if done == [] {
      FirstCharacter(c);
      assert done + [c] == [c] && |filling + [c]| == 1;
    } else {
      AppendFewest(done, |groups|, |filling|, c);
    }
    hide Fewest, Flatten, Size, Bytes;
  }

  lemma SizeSnoc(a: seq<seq<Unit>>, c: seq<Unit>)
    ensures Size(a + [c]) == Size(a) + Bytes(c) && Size([c]) == Bytes(c)
  {
    assert (a + [c])[..|a|] == a && [c][..0] == [];
  }

  lemma Completes(done: seq<seq<Unit>>, groups: seq<seq<seq<Unit>>>, result: seq<seq<Unit>>, filling: seq<seq<Unit>>,
                  selected: seq<Unit>, size: nat, c: seq<Unit>)
    requires Progress(done, groups, result, filling, selected, size) && size + Bytes(c) > MAXIMUM
    ensures Progress(done + [c], groups + [filling], result + [selected], [c], c, Bytes(c))
  {
    SomeFilling(filling);
    hide Fewest, Flatten, Size, Bytes;
    FlattenSnoc(groups, filling);
    OneCharacter(c);
    assert done[|done| - |filling|..] == filling;
    StartFewest(done, |groups|, |filling|, c);
    assert (groups + [filling])[|groups|] == filling && (result + [selected])[|groups|] == selected;
    assert Flatten(groups + [filling]) + [c] == done + [c];
  }

  lemma SomeFilling(filling: seq<seq<Unit>>)
    ensures Size(filling) > 0 ==> filling != []
  {
  }

  lemma OneCharacter(c: seq<Unit>)
    ensures Flatten([c]) == c && Size([c]) == Bytes(c)
  {
    FlattenSnoc([], c);
    SizeSnoc([], c);
    assert [] + [c] == [c] && [] + c == c;
  }

  /** What the caller of Chunks relies on. */
  ghost predicate Divided(text: seq<Unit>, groups: seq<seq<seq<Unit>>>, chunks: seq<seq<Unit>>) {
    && Flatten(groups) == Characters(text) && Flatten(chunks) == text && |groups| == |chunks|
    && (forall i :: 0 <= i < |chunks| ==> chunks[i] != [] && Fits(chunks[i]) && Characters(chunks[i]) == groups[i])
    && (forall other :: Splits(other, Characters(text)) ==> |other| >= |chunks|)
  }

  lemma EndsEmpty(text: seq<Unit>, done: seq<seq<Unit>>, groups: seq<seq<seq<Unit>>>, result: seq<seq<Unit>>, selected: seq<Unit>, size: nat)
    requires Progress(done, groups, result, [], selected, size) && Characters(text) == done && text == Flatten(done)
    ensures selected == [] && Divided(text, groups, result)
  {
    assert groups == [] && done == [];
  }

  lemma EndsFilled(text: seq<Unit>, done: seq<seq<Unit>>, groups: seq<seq<seq<Unit>>>, result: seq<seq<Unit>>, filling: seq<seq<Unit>>,
                   selected: seq<Unit>, size: nat)
    requires Progress(done, groups, result, filling, selected, size) && filling != [] && Proper(done)
    requires Characters(text) == done && text == Flatten(done)
    ensures selected != [] && Divided(text, groups + [filling], result + [selected])
  {
    hide Characters, Size, Splits, Flatten, Fits, Proper;
    FewestMeans(done, |groups|, |filling|);
    hide Fewest;
    FlattenSnoc(groups, filling);
    MessagesFit(text, done, groups + [filling], result + [selected]);
    assert (result + [selected])[|result|] == selected;
  }

  lemma MessagesFit(text: seq<Unit>, done: seq<seq<Unit>>, all: seq<seq<seq<Unit>>>, chunks: seq<seq<Unit>>)
    requires Proper(done) && text == Flatten(done) && Flatten(all) == done && |all| == |chunks|
    requires forall i :: 0 <= i < |all| ==> all[i] != [] && Size(all[i]) <= MAXIMUM && chunks[i] == Flatten(all[i])
    ensures Flatten(chunks) == text
    ensures forall i :: 0 <= i < |chunks| ==> chunks[i] != [] && Fits(chunks[i]) && Characters(chunks[i]) == all[i]
  {
    hide *;
    forall i | 0 <= i < |chunks| ensures chunks[i] != [] && Fits(chunks[i]) && Characters(chunks[i]) == all[i] {
      MessageFits(all, i);
    }
    FlattenGroups(all, chunks);
  }

  lemma MessageFits(all: seq<seq<seq<Unit>>>, i: nat)
    requires Proper(Flatten(all)) && i < |all| && all[i] != [] && Size(all[i]) <= MAXIMUM
    ensures Flatten(all[i]) != [] && Fits(Flatten(all[i])) && Characters(Flatten(all[i])) == all[i]
  {
    FrameRead();
    GroupProper(all, i);
    hide Flatten, Size, Characters;
    ReadsBack(all[i]);
    AllAreCharacters(Flatten(all[i]));
    BodySize(all[i]);
  }

  /** A group of characters is counted as fitting exactly when its encoded notice has at most 50000 bytes. */
  lemma {:induction false} GroupFits(group: seq<seq<Unit>>)
    requires Proper(group)
    ensures Size(group) <= MAXIMUM <==> |Notice(Flatten(group))| <= 50000
  {
    FrameRead();
    hide Flatten, Size, Characters;
    ReadsBack(group);
    AllAreCharacters(Flatten(group));
    BodySize(group);
  }

  lemma FewestMeans(done: seq<seq<Unit>>, completed: nat, filling: nat)
    ensures Fewest(done, completed, filling) ==> forall other :: Splits(other, done) ==> |other| > completed
  {
  }

  lemma {:induction false} GroupProper(groups: seq<seq<seq<Unit>>>, i: nat)
    requires i < |groups| && Proper(Flatten(groups))
    ensures Proper(groups[i])
  {
    var init, last := groups[..|groups| - 1], groups[|groups| - 1];
    var all := Flatten(groups);
    assert all == Flatten(init) + last;
    ProperPart(all, 0, |Flatten(init)|);
    ProperPart(all, |Flatten(init)|, |all|);
    assert all[0..|Flatten(init)|] == Flatten(init) && all[|Flatten(init)|..|all|] == last;
    if i < |init| {
      GroupProper(init, i);
    }
  }

  lemma {:induction false} FlattenGroups(groups: seq<seq<seq<Unit>>>, chunks: seq<seq<Unit>>)
    requires |groups| == |chunks| && forall i :: 0 <= i < |groups| ==> chunks[i] == Flatten(groups[i])
    ensures Flatten(chunks) == Flatten(Flatten(groups))
  {
    if groups != [] {
      FlattenGroups(groups[..|groups| - 1], chunks[..|chunks| - 1]);
      FlattenConcat(Flatten(groups[..|groups| - 1]), groups[|groups| - 1]);
    }
  }
}
