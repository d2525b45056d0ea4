/** The parser loop, the chunked reader and the forwarding loop (backend/app/services/guacamole.py,
    backend/app/api/remote.py) as they run. */
module Guacamole {
  import opened Prelude
  import opened Utf8
  import opened GuacamoleSpec
  import opened GuacamoleReader

  method ParseText(data: string) returns (p: Parse)
    ensures p == ParseInstruction(data)
  {
    hide Number, FindDot;
    var elements: seq<string> := [];
    var offset := 0;
    while true
      invariant offset <= |data|
      invariant ParseFrom(data, offset, elements) == ParseInstruction(data)
      decreases |data| - offset
    {
      var dot := FindDot(data, offset);
      if dot == |data| {
        return if |data| - offset > 7 then Invalid else Incomplete;
      }
      var prefix := data[offset..dot];
      if !IsLength(prefix) {
        return Invalid;
      }
      var end := dot + 1 + Number(prefix);
      if end > MAX_INSTRUCTION {
        return Invalid;
      }
      if end >= |data| {
        return Incomplete;
      }
      elements := elements + [data[dot + 1..end]];
      if |elements| > MAX_ELEMENTS {
        return Invalid;
      }
      if data[end] == ';' {
        return Parsed(elements, end + 1);
      }
      if data[end] != ',' {
        return Invalid;
      }
      offset := end + 1;
    }
  }

  class InstructionReader {
    var buffer: string
    var pending: seq<Byte>
    /** What the gateway is going to send; an empty chunk or no chunk is the end of the stream. */
    var chunks: seq<seq<Byte>>

    constructor (chunks: seq<seq<Byte>>)
      ensures State() == Reader("", [], chunks)
    {
      this.chunks := chunks;
      buffer, pending := "", [];
    }

    function State(): Reader
      reads this
    {
      Reader(buffer, pending, chunks)
    }

    method Read() returns (result: Result)
      modifies this
      ensures (State(), result) == ReadOne(old(State()))
    {
      while true
        invariant ReadOne(State()) == ReadOne(old(State()))
        decreases |chunks|
      {
        hide ParseInstruction;
        var parsed := ParseText(buffer);
        if parsed.Invalid? {
          return Failure;
        }
        if parsed.Parsed? {
          assert parsed.consumed <= |buffer| by {
            ParsedBound(buffer);
          }
          var raw := buffer[..parsed.consumed];
          buffer := buffer[parsed.consumed..];
          return Value(Frame(parsed.elements, raw));
        }
        if chunks == [] || chunks[0] == [] {
          return if buffer != "" || pending != [] then Failure else EndOfStream;
        }
        var decoded := Decode(pending + chunks[0]);
        if decoded.None? {
          return Failure;
        }
        buffer := buffer + decoded.value.text;
        pending := decoded.value.pending;
        chunks := chunks[1..];
        if |buffer| > MAX_INSTRUCTION {
          return Failure;
        }
      }
    }
  }

  lemma ParsedBound(data: string)
    requires ParseInstruction(data).Parsed?
    ensures 0 < ParseInstruction(data).consumed <= |data|
  {
    ParsedShape(data, 0, []);
  }

  // ---------------------------------------------------------------- from the browser to the gateway

  const MAX_INPUT: nat := 65536

  /** Python's reading of a text as an integer; `None` where it raises an error. */
  type Numerals = string -> Option<int>

  predicate Allowed(number: Numerals, elements: seq<string>) {
    && elements != []
    && elements[0] in {"key", "mouse", "sync", "size", "disconnect", "nop", "ack"}
    && (elements[0] == "size" ==>
         && |elements| == 3
         && number(elements[1]).Some? && 640 <= number(elements[1]).value <= 2560
         && number(elements[2]).Some? && 480 <= number(elements[2]).value <= 1440)
  }

  /** A display size needs both its numbers within bounds; of the other instructions six names pass, with any elements. */
  lemma AllowedExactly(number: Numerals, elements: seq<string>)
    ensures |elements| > 0 && elements[0] == "size" ==>
              (Allowed(number, elements) <==>
                |elements| == 3 && InBounds(number, elements[1], 640, 2560) && InBounds(number, elements[2], 480, 1440))
    ensures |elements| > 0 && elements[0] in {"key", "mouse", "sync", "disconnect", "nop", "ack"} ==> Allowed(number, elements)
    ensures Allowed(number, elements) ==>
              |elements| > 0 && elements[0] in {"size", "key", "mouse", "sync", "disconnect", "nop", "ack"}
  {
  }

  predicate InBounds(number: Numerals, text: string, least: int, most: int) {
    exists n :: number(text) == Some(n) && least <= n <= most
  }

  /** The instructions that are forwarded: those in front of the first one that is not allowed or not complete. */
  function Passed(number: Numerals, frames: seq<Frame>): seq<Frame> {
    if frames == [] || !Allowed(number, frames[0].elements) then []
    else [frames[0]] + Passed(number, frames[1..])
  }

  function Raw(frames: seq<Frame>): string {
    if frames == [] then "" else frames[0].raw + Raw(frames[1..])
  }

  lemma {:induction false} FramesRaw(text: string)
    ensures text == Raw(Frames(text)) + Leftover(text)
    decreases |text|
  {
    hide ParseInstruction;
    var p := ParseInstruction(text);
    if p.Parsed? {
      ParsedBound(text);
      var rest := text[p.consumed..];
      FramesRaw(rest);
      assert ([Frame(p.elements, text[..p.consumed])] + Frames(rest))[1..] == Frames(rest);
      assert text == text[..p.consumed] + rest;
    }
  }

  lemma {:induction false} PassedPrefix(number: Numerals, frames: seq<Frame>)
    ensures Passed(number, frames) <= frames && Raw(Passed(number, frames)) <= Raw(frames)
    ensures forall i | 0 <= i < |Passed(number, frames)| :: Allowed(number, Passed(number, frames)[i].elements)
    ensures |Passed(number, frames)| < |frames| ==> !Allowed(number, frames[|Passed(number, frames)|].elements)
  {
    hide Allowed;
    if frames != [] && Allowed(number, frames[0].elements) {
      PassedPrefix(number, frames[1..]);
      assert frames == [frames[0]] + frames[1..];
      assert Passed(number, frames)[1..] == Passed(number, frames[1..]);
    }
  }

  /** What the loop writes for `text`, and whether it reaches the end. */
  function Forwarded(number: Numerals, text: string): (string, bool)
    decreases |text|
  {
    if text == "" then ("", true)
    else
      var p := ParseInstruction(text);
      if !p.Parsed? || !Allowed(number, p.elements) then ("", false)
      else
        ParsedBound(text);
        var rest := Forwarded(number, text[p.consumed..]);
        (text[..p.consumed] + rest.0, rest.1)
  }

  lemma {:induction false} ForwardedFrames(number: Numerals, text: string)
    ensures Forwarded(number, text).0 == Raw(Passed(number, Frames(text)))
    ensures Forwarded(number, text).1 <==> Leftover(text) == "" && Passed(number, Frames(text)) == Frames(text)
    decreases |text|
  {
    hide ParseInstruction, Allowed;
    var p := ParseInstruction(text);
    if text == "" {
      NothingParsed();
    } else if p.Parsed? {
      ParsedBound(text);
      var frame, rest := Frame(p.elements, text[..p.consumed]), text[p.consumed..];
      assert Frames(text) == [frame] + Frames(rest) && Leftover(text) == Leftover(rest);
      PassedCons(number, frame, Frames(rest));
      if Allowed(number, p.elements) {
        ForwardedFrames(number, rest);
      }
    }
  }

  lemma NothingParsed()
    ensures ParseInstruction("") == Incomplete
  {
  }

  lemma PassedCons(number: Numerals, frame: Frame, frames: seq<Frame>)
    ensures Passed(number, [frame] + frames)
         == if Allowed(number, frame.elements) then [frame] + Passed(number, frames) else []
    ensures Raw([frame] + frames) == frame.raw + Raw(frames)
    ensures Raw([frame] + Passed(number, frames)) == frame.raw + Raw(Passed(number, frames))
    ensures [frame] + Passed(number, frames) == [frame] + frames <==> Passed(number, frames) == frames
  {
    hide Allowed;
    assert ([frame] + frames)[1..] == frames;
    assert ([frame] + Passed(number, frames))[1..] == Passed(number, frames);
  }

  /** One message of the browser. The loop ends because every instruction consumes something; what is written is a
      prefix of the message made of whole allowed instructions, and it is the whole message exactly when there is no
      error. */
  method Forward(number: Numerals, data: string) returns (written: string, accepted: bool)
    ensures |data| > MAX_INPUT ==> written == "" && !accepted
    ensures |data| <= MAX_INPUT ==> written == Raw(Passed(number, Frames(data)))
    ensures accepted <==> |data| <= MAX_INPUT && Leftover(data) == "" && Passed(number, Frames(data)) == Frames(data)
    ensures written <= data && (accepted ==> written == data)
  {
    hide ParseInstruction, Allowed, Frames, Leftover, Raw, Passed;
    written, accepted := "", false;
    FramesRaw(data);
    PassedPrefix(number, Frames(data));
    ForwardedFrames(number, data);
    if |data| > MAX_INPUT {
      return;
    }
    var remaining := data;
    while remaining != ""
      invariant Forwarded(number, data).0 == written + Forwarded(number, remaining).0
      invariant Forwarded(number, data).1 == Forwarded(number, remaining).1
      decreases |remaining|
    {
      var parsed := ParseText(remaining);
      if !parsed.Parsed? || !Allowed(number, parsed.elements) {
        return;
      }
      ParsedBound(remaining);
      written := written + remaining[..parsed.consumed];
      remaining := remaining[parsed.consumed..];
    }
    accepted := true;
  }
}
