/** Reading instructions from a byte stream that arrives in chunks (backend/app/services/guacamole.py). */
module GuacamoleReader {
  import opened Prelude
  import opened Utf8
  import opened GuacamoleSpec

  const CHUNK: nat := 16384

  // ---------------------------------------------------------------- the whole text at once

  datatype Frame = Frame(elements: seq<string>, raw: string)

  /** The instructions of a text, one after the other, up to its end or the first error. */
  function Frames(text: string): seq<Frame>
    decreases |text|
  {
    var p := ParseInstruction(text);
    if !p.Parsed? then []
    else
      ParsedShape(text, 0, []);
      [Frame(p.elements, text[..p.consumed])] + Frames(text[p.consumed..])
  }

  /** What follows the last instruction. */
  function Leftover(text: string): string
    decreases |text|
  {
    var p := ParseInstruction(text);
    if !p.Parsed? then text
    else
      ParsedShape(text, 0, []);
      Leftover(text[p.consumed..])
  }

  // ---------------------------------------------------------------- the reader

  datatype Ending = Closed | Broken

  datatype Run = Run(frames: seq<Frame>, ending: Ending)

  /** The state of the reader and the chunks it is going to be given. */
  datatype Reader = Reader(buffer: string, pending: seq<Byte>, chunks: seq<seq<Byte>>)

  datatype Result = Value(frame: Frame) | EndOfStream | Failure

  /** One call of `read`. */
  function ReadOne(r: Reader): (Reader, Result)
    decreases |r.chunks|
  {
    var p := ParseInstruction(r.buffer);
    match p
    case Parsed(elements, n) =>
      ParsedShape(r.buffer, 0, []);
      (r.(buffer := r.buffer[n..]), Value(Frame(elements, r.buffer[..n])))
    case Invalid => (r, Failure)
    case Incomplete =>
      if r.chunks == [] || r.chunks[0] == [] then (r, if r.buffer != "" || r.pending != [] then Failure else EndOfStream)
      else
        var d := Decode(r.pending + r.chunks[0]);
        if d.None? then (r, Failure)
        else
          var next := Reader(r.buffer + d.value.text, d.value.pending, r.chunks[1..]);
          if |next.buffer| > MAX_INSTRUCTION then (next, Failure) else ReadOne(next)
  }

  /** Calling `read` until the stream ends or fails. */
  function ReadAll(r: Reader): Run
    decreases |r.chunks|, |r.buffer|
  {
    var p := ParseInstruction(r.buffer);
    match p
    case Parsed(elements, n) =>
      ParsedShape(r.buffer, 0, []);
      var run := ReadAll(r.(buffer := r.buffer[n..]));
      Run([Frame(elements, r.buffer[..n])] + run.frames, run.ending)
    case Invalid => Run([], Broken)
    case Incomplete =>
      if r.chunks == [] || r.chunks[0] == [] then Run([], if r.buffer != "" || r.pending != [] then Broken else Closed)
      else
        var d := Decode(r.pending + r.chunks[0]);
        if d.None? then Run([], Broken)
        else
          var next := Reader(r.buffer + d.value.text, d.value.pending, r.chunks[1..]);
          if |next.buffer| > MAX_INSTRUCTION then Run([], Broken) else ReadAll(next)
  }

  /** `ReadAll` is what repeated calls of `read` give. */
  lemma {:induction false} ReadAllReads(r: Reader)
    ensures var (next, result) := ReadOne(r);
            match result
            case Value(frame) => ReadAll(r) == Run([frame] + ReadAll(next).frames, ReadAll(next).ending)
            case EndOfStream => ReadAll(r) == Run([], Closed)
            case Failure => ReadAll(r) == Run([], Broken)
    decreases |r.chunks|
  {
    hide ParseInstruction;
    if ParseInstruction(r.buffer) == Incomplete && r.chunks != [] && r.chunks[0] != [] {
      var d := Decode(r.pending + r.chunks[0]);
      if d.Some? {
        ReadAllReads(Reader(r.buffer + d.value.text, d.value.pending, r.chunks[1..]));
      }
    }
  }

  // ---------------------------------------------------------------- chunking does not matter

  predicate Chunked(chunks: seq<seq<Byte>>) {
    forall i | 0 <= i < |chunks| :: 0 < |chunks[i]| <= CHUNK
  }

  predicate Small(frames: seq<Frame>) {
    forall i | 0 <= i < |frames| :: |frames[i].raw| <= MAX_INSTRUCTION - CHUNK
  }

  /** The outcome computed from the whole text: all its instructions, and a clean end only if nothing is left over. */
  function Expected(text: string, pending: seq<Byte>): Run {
    Run(Frames(text), if Leftover(text) == "" && pending == [] then Closed else Broken)
  }

  lemma FramesMore(buffer: string, more: string)
    requires ParseInstruction(buffer).Parsed?
    ensures var p := ParseInstruction(buffer);
            && 0 < p.consumed <= |buffer|
            && Frames(buffer + more) == [Frame(p.elements, buffer[..p.consumed])] + Frames(buffer[p.consumed..] + more)
            && Leftover(buffer + more) == Leftover(buffer[p.consumed..] + more)
  {
    var p := ParseInstruction(buffer);
    ParseMore(buffer, more, 0, []);
    ParsedShape(buffer, 0, []);
    assert ParseInstruction(buffer + more) == p && 0 < p.consumed <= |buffer|;
    hide ParseFrom, ParseInstruction;
    assert (buffer + more)[..p.consumed] == buffer[..p.consumed];
    assert (buffer + more)[p.consumed..] == buffer[p.consumed..] + more;
  }

  lemma FramesNone(text: string)
    requires !ParseInstruction(text).Parsed?
    ensures Frames(text) == [] && Leftover(text) == text
  {
  }

  /** A buffer that holds no complete instruction is shorter than the instruction it is the beginning of. */
  lemma BufferBound(buffer: string, more: string)
    requires ParseInstruction(buffer) == Incomplete && Small(Frames(buffer + more))
    ensures ParseInstruction(buffer + more).Parsed? ==> |buffer| < MAX_INSTRUCTION - CHUNK
  {
    var text := buffer + more;
    if ParseInstruction(text).Parsed? {
      Recognised(text, |buffer|);
      assert text[..|buffer|] == buffer;
      ParsedShape(text, 0, []);
      hide ParseInstruction;
      assert Frames(text)[0].raw == text[..ParseInstruction(text).consumed];
    }
  }

  /** However the bytes are cut into chunks, the reader yields the instructions of the whole text and ends alike,
      provided each instruction leaves room for one chunk more. */
  lemma {:induction false} Independent(r: Reader, rest: string, pending: seq<Byte>)
    requires Held(r.pending) && Chunked(r.chunks)
    requires Decode(r.pending + Concat(r.chunks)) == Some(Decoded(rest, pending))
    requires Small(Frames(r.buffer + rest))
    ensures ReadAll(r) == Expected(r.buffer + rest, pending)
    decreases |r.chunks|, |r.buffer|
  {
    var p := ParseInstruction(r.buffer);
    match p
    case Parsed(elements, n) =>
      IndependentParsed(r, rest, pending);
    case Invalid =>
      ParseMore(r.buffer, rest, 0, []);
      FramesNone(r.buffer + rest);
      InvalidNotEmpty(r.buffer);
    case Incomplete =>
      if r.chunks == [] {
        IndependentEnd(r, rest, pending);
      } else {
        IndependentChunk(r, rest, pending);
      }
  }

  lemma InvalidNotEmpty(buffer: string)
    requires ParseInstruction(buffer) == Invalid
    ensures buffer != ""
  {
  }

  lemma {:induction false} IndependentParsed(r: Reader, rest: string, pending: seq<Byte>)
    requires Held(r.pending) && Chunked(r.chunks)
    requires Decode(r.pending + Concat(r.chunks)) == Some(Decoded(rest, pending))
    requires Small(Frames(r.buffer + rest)) && ParseInstruction(r.buffer).Parsed?
    ensures ReadAll(r) == Expected(r.buffer + rest, pending)
    decreases |r.chunks|, |r.buffer|, 0
  {
    hide ParseInstruction, Decode, Held, Leftover, Frames;
    FramesMore(r.buffer, rest);
    var p := ParseInstruction(r.buffer);
    var next := r.(buffer := r.buffer[p.consumed..]);
    assert forall i | 0 <= i < |Frames(next.buffer + rest)| ::
        Frames(next.buffer + rest)[i] == Frames(r.buffer + rest)[i + 1];
    Independent(next, rest, pending);
  }

  lemma IndependentEnd(r: Reader, rest: string, pending: seq<Byte>)
    requires Held(r.pending) && r.chunks == []
    requires Decode(r.pending + Concat(r.chunks)) == Some(Decoded(rest, pending))
    requires ParseInstruction(r.buffer) == Incomplete
    ensures ReadAll(r) == Expected(r.buffer + rest, pending)
  {
    assert r.pending + [] == r.pending;
    assert Decode(r.pending) == Some(Decoded("", r.pending));
    assert r.buffer + "" == r.buffer;
    FramesNone(r.buffer);
  }

  lemma {:induction false} IndependentChunk(r: Reader, rest: string, pending: seq<Byte>)
    requires Held(r.pending) && Chunked(r.chunks) && r.chunks != []
    requires Decode(r.pending + Concat(r.chunks)) == Some(Decoded(rest, pending))
    requires Small(Frames(r.buffer + rest)) && ParseInstruction(r.buffer) == Incomplete
    ensures ReadAll(r) == Expected(r.buffer + rest, pending)
    decreases |r.chunks|, |r.buffer|, 0
  {
    hide ParseInstruction, Decode, Held, Leftover, Frames;
    var chunk, others := r.chunks[0], r.chunks[1..];
    assert r.pending + Concat(r.chunks) == (r.pending + chunk) + Concat(others);
    DecodeCat(r.pending + chunk, Concat(others));
    var d := Decode(r.pending + chunk).value;
    var tail := Decode(d.pending + Concat(others)).value;
    DecodeHeld(r.pending + chunk);
    ChunkLength(r.pending, chunk);
    BufferBound(r.buffer, rest);
    var next := Reader(r.buffer + d.text, d.pending, others);
    assert next.buffer + tail.text == r.buffer + rest;
    if |next.buffer| > MAX_INSTRUCTION {
      FramesNone(r.buffer + rest);
    } else {
      Independent(next, tail.text, tail.pending);
    }
  }

  /** The same stream in two chunkings is read alike. */
  lemma ChunkingDoesNotMatter(a: seq<seq<Byte>>, b: seq<seq<Byte>>)
    requires Chunked(a) && Chunked(b) && Concat(a) == Concat(b)
    requires Decode(Concat(a)).Some? && Small(Frames(Decode(Concat(a)).value.text))
    ensures ReadAll(Reader("", [], a)) == ReadAll(Reader("", [], b))
         == Expected(Decode(Concat(a)).value.text, Decode(Concat(a)).value.pending)
  {
    hide ReadAll, Decode, Frames, Leftover;
    var d := Decode(Concat(a)).value;
    assert [] + Concat(a) == Concat(a);
    assert "" + d.text == d.text;
    Independent(Reader("", [], a), d.text, d.pending);
    Independent(Reader("", [], b), d.text, d.pending);
  }

  // ---------------------------------------------------------------- printed streams

  predicate Printable(vs: seq<string>) {
    1 <= |vs| <= MAX_ELEMENTS && |Instruction(vs)| <= MAX_INSTRUCTION - CHUNK
  }

  function Print(instructions: seq<seq<string>>): string {
    if instructions == [] then "" else Instruction(instructions[0]) + Print(instructions[1..])
  }

  function Printed(instructions: seq<seq<string>>): seq<Frame> {
    if instructions == [] then [] else [Frame(instructions[0], Instruction(instructions[0]))] + Printed(instructions[1..])
  }

  /** A sequence of instructions printed one after the other is read as exactly those instructions. */
  lemma {:induction false} PrintedFrames(instructions: seq<seq<string>>)
    requires forall i | 0 <= i < |instructions| :: Printable(instructions[i])
    ensures Frames(Print(instructions)) == Printed(instructions) && Leftover(Print(instructions)) == ""
    ensures Small(Printed(instructions))
  {
    hide Instruction, ParseFrom;
    if instructions == [] {
      FramesNone("") by {
        EmptyIncomplete();
      }
    } else {
      var first, rest := Instruction(instructions[0]), Print(instructions[1..]);
      assert Printable(instructions[0]);
      PrintedFrames(instructions[1..]);
      RoundTrip(instructions[0], "");
      assert first + "" == first;
      FramesMore(first, rest);
      assert first[..|first|] == first && first[|first|..] + rest == rest;
    }
  }

  lemma EmptyIncomplete()
    ensures ParseInstruction("") == Incomplete
  {
  }

  /** From the printer through any chunking to the reader: the instructions that went in come out, and then the
      stream is closed. */
  lemma PrintedRead(instructions: seq<seq<string>>, chunks: seq<seq<Byte>>)
    requires forall i | 0 <= i < |instructions| :: Printable(instructions[i])
    requires Chunked(chunks) && Concat(chunks) == Encode(Print(instructions))
    ensures ReadAll(Reader("", [], chunks)) == Run(Printed(instructions), Closed)
  {
    hide *;
    PrintedFrames(instructions);
    assert [] + Concat(chunks) == Concat(chunks);
    assert "" + Print(instructions) == Print(instructions);
    Nothing();
    EncodedText(Print(instructions), []);
    assert Encode(Print(instructions)) + [] == Encode(Print(instructions));
    Independent(Reader("", [], chunks), Print(instructions), []);
    ExpectedClosed(Print(instructions));
  }

  lemma ExpectedClosed(text: string)
    requires Leftover(text) == ""
    ensures Expected(text, []) == Run(Frames(text), Closed)
  {
  }

  // ---------------------------------------------------------------- streams that do not decode

  /** A stream that does not decode is read to an error in every chunking, and what is read before is a beginning of
      the instructions in front of the bad bytes. */
  lemma {:induction false} BadStream(r: Reader)
    requires Held(r.pending) && Chunked(r.chunks) && Decode(r.pending + Concat(r.chunks)).None?
    ensures ReadAll(r).ending == Broken
    ensures ReadAll(r).frames <= Frames(r.buffer + Decodable(r.pending + Concat(r.chunks)))
    decreases |r.chunks|, |r.buffer|
  {
    hide ParseInstruction, Decode, Held, Decodable, Frames;
    var p := ParseInstruction(r.buffer);
    var text := Decodable(r.pending + Concat(r.chunks));
    if p.Parsed? {
      FramesMore(r.buffer, text);
      BadStream(r.(buffer := r.buffer[p.consumed..]));
    } else if p.Incomplete? {
      HeldDecodes(r.pending);
      assert r.chunks == [] ==> r.pending + Concat(r.chunks) == r.pending;
      var chunk, others := r.chunks[0], r.chunks[1..];
      assert r.pending + Concat(r.chunks) == (r.pending + chunk) + Concat(others);
      if Decode(r.pending + chunk).Some? {
        DecodeHeld(r.pending + chunk);
        DecodeCatBad(r.pending + chunk, Concat(others));
        var d := Decode(r.pending + chunk).value;
        var next := Reader(r.buffer + d.text, d.pending, others);
        assert next.buffer + Decodable(d.pending + Concat(others)) == r.buffer + text;
        BadStream(next);
      }
    }
  }

  /** The text of the chunks in front of the one in which the decoder fails. */
  function Before(pending: seq<Byte>, chunks: seq<seq<Byte>>): string
    decreases |chunks|
  {
    if chunks == [] then ""
    else
      var d := Decode(pending + chunks[0]);
      if d.None? then "" else d.value.text + Before(d.value.pending, chunks[1..])
  }

  /** Exactly the instructions completed by the chunks in front of the failing one are read. */
  lemma {:induction false} BadStreamReads(r: Reader)
    requires Held(r.pending) && Chunked(r.chunks) && Decode(r.pending + Concat(r.chunks)).None?
    requires Small(Frames(r.buffer + Before(r.pending, r.chunks)))
    ensures ReadAll(r) == Run(Frames(r.buffer + Before(r.pending, r.chunks)), Broken)
    decreases |r.chunks|, |r.buffer|
  {
    hide ParseInstruction, Decode, Held, Frames;
    var p := ParseInstruction(r.buffer);
    var text := Before(r.pending, r.chunks);
    if p.Parsed? {
      FramesMore(r.buffer, text);
      var rest := Frames(r.buffer[p.consumed..] + text);
      assert forall i | 0 <= i < |rest| :: rest[i] == Frames(r.buffer + text)[i + 1];
      BadStreamReads(r.(buffer := r.buffer[p.consumed..]));
    } else if p.Invalid? {
      InvalidFrames(r.buffer, text);
    } else {
      HeldDecodes(r.pending);
      assert r.chunks == [] ==> r.pending + Concat(r.chunks) == r.pending;
      BadStreamChunk(r);
    }
  }

  lemma InvalidFrames(buffer: string, more: string)
    requires ParseInstruction(buffer) == Invalid
    ensures Frames(buffer + more) == []
  {
    ParseMore(buffer, more, 0, []);
    FramesNone(buffer + more);
  }

  lemma {:induction false} BadStreamChunk(r: Reader)
    requires Held(r.pending) && Chunked(r.chunks) && r.chunks != []
    requires Decode(r.pending + Concat(r.chunks)).None?
    requires Small(Frames(r.buffer + Before(r.pending, r.chunks))) && ParseInstruction(r.buffer) == Incomplete
    ensures ReadAll(r) == Run(Frames(r.buffer + Before(r.pending, r.chunks)), Broken)
    decreases |r.chunks|, |r.buffer|, 0
  {
    hide ParseInstruction, Decode, Held, Frames;
    hide Small, Decodable;
    var chunk, others := r.chunks[0], r.chunks[1..];
    var text := Before(r.pending, r.chunks);
    Associates(r.pending, chunk, Concat(others));
    if Decode(r.pending + chunk).None? {
      assert r.buffer + text == r.buffer;
      FramesNone(r.buffer);
    } else {
      DecodeHeld(r.pending + chunk);
      DecodeCatBad(r.pending + chunk, Concat(others));
      ChunkLength(r.pending, chunk);
      BufferBound(r.buffer, text);
      var d := Decode(r.pending + chunk).value;
      var next := Reader(r.buffer + d.text, d.pending, others);
      assert next.buffer + Before(d.pending, others) == r.buffer + text;
      if |next.buffer| > MAX_INSTRUCTION {
        FramesNone(r.buffer + text);
      } else {
        BadStreamReads(next);
      }
    }
  }

  /** The bytes of chunk `k` are the first that no text can go on with. */
  predicate FailsAt(chunks: seq<seq<Byte>>, k: nat) {
    && k < |chunks|
    && Decode(Concat(chunks[..k])).Some? && Decode(Concat(chunks[..k + 1])).None?
  }

  /** What is read before the failing chunk is the text of all chunks in front of it. */
  lemma {:induction false} BeforeFailing(pending: seq<Byte>, chunks: seq<seq<Byte>>, k: nat)
    requires Held(pending) && k < |chunks|
    requires Decode(pending + Concat(chunks[..k])).Some? && Decode(pending + Concat(chunks[..k + 1])).None?
    ensures Before(pending, chunks) == Decode(pending + Concat(chunks[..k])).value.text
    decreases k
  {
    hide Decode, Held;
    assert chunks[..k + 1][0] == chunks[0] && chunks[..k + 1][1..] == chunks[1..][..k];
    Associates(pending, chunks[0], Concat(chunks[1..][..k]));
    if k == 0 {
      HeldDecodes(pending);
      assert pending + [] == pending && pending + chunks[0] + [] == pending + chunks[0];
    } else {
      var rest := chunks[1..];
      assert chunks[..k][0] == chunks[0] && chunks[..k][1..] == rest[..k - 1];
      Associates(pending, chunks[0], Concat(rest[..k - 1]));
      DecodeCat(pending + chunks[0], Concat(rest[..k - 1]));
      var d := Decode(pending + chunks[0]).value;
      DecodeHeld(pending + chunks[0]);
      DecodeCatBad(pending + chunks[0], Concat(rest[..k]));
      BeforeFailing(d.pending, rest, k - 1);
    }
  }

  /** A stream that does not decode has such a chunk, and it decides what is read. */
  lemma {:induction false} SomeChunkFails(chunks: seq<seq<Byte>>, n: nat) returns (k: nat)
    requires n <= |chunks| && Decode(Concat(chunks[..n])).None?
    ensures k < n && FailsAt(chunks, k) && Before([], chunks) == Decode(Concat(chunks[..k])).value.text
  {
    hide Decode;
    Nothing();
    if n == 0 || Decode(Concat(chunks[..n - 1])).Some? {
      k := n - 1;
      assert [] + Concat(chunks[..k]) == Concat(chunks[..k]) && [] + Concat(chunks[..n]) == Concat(chunks[..n]);
      BeforeFailing([], chunks, k);
    } else {
      k := SomeChunkFails(chunks, n - 1);
    }
  }

  lemma DecodeHeld(bytes: seq<Byte>)
    requires Decode(bytes).Some?
    ensures Held(Decode(bytes).value.pending)
  {
    hide *;
    DecodedText(bytes);
  }

  /** Two chunkings of a stream that does not decode are read alike exactly when the same instructions are complete in
      the chunks in front of the one with the first bad byte. */
  lemma BadStreamsAlike(a: seq<seq<Byte>>, i: nat, b: seq<seq<Byte>>, j: nat)
    requires Chunked(a) && Chunked(b) && Concat(a) == Concat(b) && FailsAt(a, i) && FailsAt(b, j)
    requires Small(Frames(Decode(Concat(a[..i])).value.text)) && Small(Frames(Decode(Concat(b[..j])).value.text))
    ensures ReadAll(Reader("", [], a)) == ReadAll(Reader("", [], b))
       <==> Frames(Decode(Concat(a[..i])).value.text) == Frames(Decode(Concat(b[..j])).value.text)
  {
    hide Decode, Frames, Small, ReadAll;
    BadChunk(a, i);
    BadChunk(b, j);
  }

  /** Exactly the instructions complete in the chunks in front of the one with the first bad byte are read. */
  lemma BadChunk(chunks: seq<seq<Byte>>, k: nat)
    requires Chunked(chunks) && FailsAt(chunks, k) && Small(Frames(Decode(Concat(chunks[..k])).value.text))
    ensures ReadAll(Reader("", [], chunks)) == Run(Frames(Decode(Concat(chunks[..k])).value.text), Broken)
  {
    hide Decode, Frames, Small, ReadAll;
    Nothing();
    assert forall bytes: seq<Byte> {:trigger Decode(bytes)} :: [] + bytes == bytes;
    assert "" + Before([], chunks) == Before([], chunks);
    BeforeFailing([], chunks, k);
    StaysBad(chunks, k + 1);
    BadStreamReads(Reader("", [], chunks));
  }

  lemma {:induction false} ConcatSplit(chunks: seq<seq<Byte>>, n: nat)
    requires n <= |chunks|
    ensures Concat(chunks) == Concat(chunks[..n]) + Concat(chunks[n..])
  {
    if n == 0 {
      assert chunks[0..] == chunks;
    } else {
      ConcatSplit(chunks[1..], n - 1);
      assert chunks[..n][1..] == chunks[1..][..n - 1] && chunks[1..][n - 1..] == chunks[n..];
      Associates(chunks[0], Concat(chunks[1..][..n - 1]), Concat(chunks[n..]));
    }
  }

  lemma StaysBad(chunks: seq<seq<Byte>>, n: nat)
    requires n <= |chunks| && Decode(Concat(chunks[..n])).None?
    ensures Decode(Concat(chunks)).None?
  {
    hide Decode;
    ConcatSplit(chunks, n);
    if Decode(Concat(chunks)).Some? {
      DecodeCat(Concat(chunks[..n]), Concat(chunks[n..]));
      assert false;
    }
  }

  lemma EncodedBad(text: string, bad: seq<Byte>)
    requires Decode(bad).None?
    ensures Decode(Encode(text) + bad).None? && Decode(Encode(text)) == Some(Decoded(text, []))
  {
    hide Decode, Encode, Held;
    Nothing();
    EncodedText(text, []);
    assert Encode(text) + [] == Encode(text);
    assert [] + bad == bad;
    if Decode(Encode(text) + bad).Some? {
      DecodeCat(Encode(text), bad);
      assert false;
    }
  }

  function Filled(buffer: string, d: Decoded, chunks: seq<seq<Byte>>): Reader {
    Reader(buffer + d.text, d.pending, chunks)
  }

  lemma ReadChunk(buffer: string, chunk: seq<Byte>, more: seq<seq<Byte>>)
    requires ParseInstruction(buffer) == Incomplete && chunk != []
    ensures Decode(chunk).None? ==> ReadAll(Reader(buffer, [], [chunk] + more)) == Run([], Broken)
    ensures Decode(chunk).Some? && |buffer + Decode(chunk).value.text| <= MAX_INSTRUCTION
        ==> ReadAll(Reader(buffer, [], [chunk] + more)) == ReadAll(Filled(buffer, Decode(chunk).value, more))
  {
    hide Decode, ParseInstruction;
    assert ([chunk] + more)[1..] == more && [] + chunk == chunk;
  }

  lemma ReadInstruction(text: string, vs: seq<string>, chunks: seq<seq<Byte>>)
    requires ParseInstruction(text) == Parsed(vs, |text|)
    ensures ReadAll(Reader(text, [], chunks)).frames == [Frame(vs, text)] + ReadAll(Reader("", [], chunks)).frames
    ensures ReadAll(Reader(text, [], chunks)).ending == ReadAll(Reader("", [], chunks)).ending
  {
    hide ParseInstruction;
    assert text[|text|..] == "" && text[..|text|] == text;
  }

  /** There the chunking does matter, for every instruction and all bytes that do not decode: in one chunk the bad
      bytes take the instruction in front of them along, in two chunks the instruction is read first. */
  lemma BadStreamsDiffer(vs: seq<string>, bad: seq<Byte>, more: seq<seq<Byte>>)
    requires Printable(vs) && Decode(bad).None?
    ensures var bytes := Encode(Instruction(vs));
            && Concat([bytes + bad] + more) == Concat([bytes, bad] + more)
            && ReadAll(Reader("", [], [bytes + bad] + more)) == Run([], Broken)
            && ReadAll(Reader("", [], [bytes, bad] + more)) == Run([Frame(vs, Instruction(vs))], Broken)
  {
    hide Decode, ParseInstruction, Instruction, Encode, ReadAll;
    var text := Instruction(vs);
    var bytes := Encode(text);
    Nothing();
    EncodedBad(text, bad);
    RoundTrip(vs, "");
    EmptyIncomplete();
    assert text + "" == text && "" + text == text;
    ReadChunk("", bytes + bad, more);
    ReadChunk("", bytes, [bad] + more);
    ReadInstruction(text, vs, [bad] + more);
    ReadChunk("", bad, more);
    assert [bytes, bad] + more == [bytes] + ([bad] + more);
    assert ([bytes + bad] + more)[1..] == more;
    assert ([bytes, bad] + more)[1..] == [bad] + more && ([bad] + more)[1..] == more;
    Associates(bytes, bad, Concat(more));
  }

  /** Such bytes: one that begins no character, and two of which the second cannot follow the first, although three
      bytes would make a character. */
  lemma BadBytes()
    ensures Decode([0xFF]).None? && Decode([0xE2, 0x28]).None? && Decode([0xE2]) == Some(Decoded("", [0xE2]))
  {
    assert First([0xFF]) == [] && First([0xE2, 0x28]) == [0xE2, 0x28] && First([0xE2]) == [0xE2];
  }
}
