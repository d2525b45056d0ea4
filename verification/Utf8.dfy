/** UTF-8 (RFC 3629, section 4): what the incremental decoder yields, holds back and refuses. */
module Utf8 {
  import opened Prelude

  // ---------------------------------------------------------------- characters

  /** How many bytes a character has that begins with this byte; 0 if none does. */
  function Width(b: Byte): nat {
    if b < 0x80 then 1
    else if 0xC2 <= b < 0xE0 then 2
    else if 0xE0 <= b < 0xF0 then 3
    else if 0xF0 <= b < 0xF5 then 4
    else 0
  }

  predicate Continuation(b: Byte) {
    0x80 <= b < 0xC0
  }

  /** The first byte narrows the second one: no overlong form, no surrogate, nothing above U+10FFFF. */
  predicate Second(first: Byte, b: Byte) {
    && Continuation(b)
    && (first == 0xE0 ==> 0xA0 <= b) && (first == 0xED ==> b < 0xA0)
    && (first == 0xF0 ==> 0x90 <= b) && (first == 0xF4 ==> b < 0x90)
  }

  /** The bytes can become a character, or are one. */
  predicate Begins(s: seq<Byte>) {
    && 0 < |s| <= Width(s[0])
    && (|s| > 1 ==> Second(s[0], s[1]))
    && (|s| > 2 ==> Continuation(s[2]))
    && (|s| > 3 ==> Continuation(s[3]))
  }

  predicate Complete(s: seq<Byte>) {
    Begins(s) && |s| == Width(s[0])
  }

  /** The last six bits of a continuation. */
  function Six(b: Byte): (r: nat)
    ensures Continuation(b) ==> r < 64
  {
    if Continuation(b) then b - 0x80 else 0
  }

  function CodePoint(s: seq<Byte>): (n: nat)
    requires Complete(s)
    ensures n < 0xD800 || 0xE000 <= n < 0x11_0000
  {
    var first: int := s[0];
    match |s|
    case 1 => first
    case 2 => (first - 0xC0) * 64 + Six(s[1])
    case 3 => ((first - 0xE0) * 64 + Six(s[1])) * 64 + Six(s[2])
    case _ => (((first - 0xF0) * 64 + Six(s[1])) * 64 + Six(s[2])) * 64 + Six(s[3])
  }

  function Character(s: seq<Byte>): char
    requires Complete(s)
  {
    CodePoint(s) as char
  }

  function Bytes(n: nat): seq<Byte>
    requires n < 0x11_0000
  {
    var m, l, k := n / 64, n / 64 / 64, n / 64 / 64 / 64;
    if n < 0x80 then [n]
    else if n < 0x800 then [0xC0 + m, 0x80 + n % 64]
    else if n < 0x1_0000 then [0xE0 + l, 0x80 + m % 64, 0x80 + n % 64]
    else [0xF0 + k, 0x80 + l % 64, 0x80 + m % 64, 0x80 + n % 64]
  }

  function EncodeChar(c: char): seq<Byte> {
    Bytes(c as nat)
  }

  lemma BytesDecode(n: nat)
    requires n < 0xD800 || 0xE000 <= n < 0x11_0000
    ensures Complete(Bytes(n)) && CodePoint(Bytes(n)) == n
  {
    var m, l, k := n / 64, n / 64 / 64, n / 64 / 64 / 64;
    assert n == m * 64 + n % 64 && m == l * 64 + m % 64 && l == k * 64 + l % 64;
  }

  lemma Digits(a: nat, b: nat)
    requires b < 64
    ensures (a * 64 + b) / 64 == a && (a * 64 + b) % 64 == b
  {
  }

  lemma BytesEncode(s: seq<Byte>)
    requires Complete(s)
    ensures Bytes(CodePoint(s)) == s
  {
    var first: int := s[0];
    if |s| == 2 {
      Digits(first - 0xC0, Six(s[1]));
    } else if |s| == 3 {
      Digits(first - 0xE0, Six(s[1]));
      Digits((first - 0xE0) * 64 + Six(s[1]), Six(s[2]));
    } else if |s| == 4 {
      Digits(first - 0xF0, Six(s[1]));
      Digits((first - 0xF0) * 64 + Six(s[1]), Six(s[2]));
      Digits(((first - 0xF0) * 64 + Six(s[1])) * 64 + Six(s[2]), Six(s[3]));
    }
  }

  lemma EncodedDecodes(c: char)
    ensures Complete(EncodeChar(c)) && Character(EncodeChar(c)) == c
  {
    BytesDecode(c as nat);
    hide CodePoint, Bytes, Complete;
  }

  lemma DecodedEncodes(s: seq<Byte>)
    requires Complete(s)
    ensures EncodeChar(Character(s)) == s
  {
    BytesEncode(s);
    hide CodePoint, Bytes, Complete;
  }

  /** The smallest bytes that make a character of the beginning of one. */
  function Completed(s: seq<Byte>): (r: seq<Byte>)
    requires Begins(s)
    ensures Complete(r) && s <= r
    decreases Width(s[0]) - |s|
  {
    if |s| == Width(s[0]) then s
    else Completed(s + [if |s| == 1 && s[0] == 0xE0 then 0xA0 else if |s| == 1 && s[0] == 0xF0 then 0x90 else 0x80])
  }

  lemma BeginsExactly(s: seq<Byte>)
    ensures Begins(s) <==> s != [] && exists c :: s <= EncodeChar(c)
  {
    hide Character, EncodeChar;
    if Begins(s) {
      DecodedEncodes(Completed(s));
      assert s <= EncodeChar(Character(Completed(s)));
    } else if c :| s != [] && s <= EncodeChar(c) {
      EncodedDecodes(c);
      assert false;
    }
  }

  // ---------------------------------------------------------------- texts

  function Encode(text: string): seq<Byte> {
    if text == "" then [] else EncodeChar(text[0]) + Encode(text[1..])
  }

  datatype Decoded = Decoded(text: string, pending: seq<Byte>)

  /** The bytes of the first character, or as many of them as there are. */
  function First(bytes: seq<Byte>): seq<Byte>
    requires bytes != []
  {
    if Width(bytes[0]) <= |bytes| then bytes[..Width(bytes[0])] else bytes
  }

  function Put(c: char, d: Option<Decoded>): Option<Decoded> {
    if d.None? then None else Some(Decoded([c] + d.value.text, d.value.pending))
  }

  /** The incremental decoder: all complete characters, and the bytes of an unfinished last one; `None` where it raises
      an error, which is as soon as bytes cannot become a character. */
  function Decode(bytes: seq<Byte>): Option<Decoded>
    decreases |bytes|
  {
    if bytes == [] then Some(Decoded("", []))
    else
      var s := First(bytes);
      if !Begins(s) then None
      else if !Complete(s) then Some(Decoded("", bytes))
      else
        Put(Character(s), Decode(bytes[|s|..]))
  }

  /** The characters in front of the first bytes that cannot become one. */
  function Decodable(bytes: seq<Byte>): string
    decreases |bytes|
  {
    if bytes == [] || !Complete(First(bytes)) then ""
    else [Character(First(bytes))] + Decodable(bytes[|First(bytes)|..])
  }

  /** What the decoder holds back: nothing, or the unfinished bytes of one character. */
  predicate Held(pending: seq<Byte>) {
    pending == [] || (Begins(pending) && !Complete(pending))
  }

  /** One character is decoded at a time. */
  lemma DecodeStep(s: seq<Byte>, rest: seq<Byte>)
    requires Complete(s)
    ensures First(s + rest) == s
    ensures Decode(s + rest) == Put(Character(s), Decode(rest))
    ensures Decodable(s + rest) == [Character(s)] + Decodable(rest)
  {
    assert s != [] && (s + rest)[|s|..] == rest;
    assert First(s + rest) == s;
    hide Character, Begins, First;
  }

  /** The bytes begin with a character, or with none. */
  lemma Cases(bytes: seq<Byte>) returns (s: seq<Byte>, rest: seq<Byte>)
    requires bytes != []
    ensures bytes == s + rest && s == First(bytes)
    ensures Complete(s) ==> |rest| < |bytes|
    ensures !Complete(s) ==> Decode(bytes) == (if Begins(s) then Some(Decoded("", bytes)) else None)
    ensures !Complete(s) && Begins(s) ==> s == bytes
    ensures !Complete(s) ==> Decodable(bytes) == ""
  {
    s := First(bytes);
    rest := bytes[|s|..];
  }

  lemma Nothing()
    ensures Decode([]) == Some(Decoded("", [])) && Encode("") == [] && Decodable([]) == "" && Held([])
  {
  }

  lemma HeldDecodes(pending: seq<Byte>)
    requires Held(pending)
    ensures Decode(pending) == Some(Decoded("", pending))
  {
    assert pending != [] ==> First(pending) == pending;
  }

  lemma EncodeCons(c: char, text: string)
    ensures Encode([c] + text) == EncodeChar(c) + Encode(text)
  {
  }

  lemma Associates(a: seq<Byte>, b: seq<Byte>, c: seq<Byte>)
    ensures (a + b) + c == a + (b + c)
  {
  }

  lemma {:induction false} EncodedText(text: string, pending: seq<Byte>)
    requires Held(pending)
    ensures Decode(Encode(text) + pending) == Some(Decoded(text, pending))
  {
    hide Decode, Encode, Held, Complete, EncodeChar, Character, First;
    HeldDecodes(pending);
    if text == "" {
      Nothing();
      assert [] + pending == pending;
    } else {
      var s := EncodeChar(text[0]);
      EncodedText(text[1..], pending);
      EncodedDecodes(text[0]);
      DecodeStep(s, Encode(text[1..]) + pending);
      EncodeCons(text[0], text[1..]);
      assert [text[0]] + text[1..] == text;
      Associates(s, Encode(text[1..]), pending);
    }
  }

  lemma {:induction false} DecodedText(bytes: seq<Byte>)
    requires Decode(bytes).Some?
    ensures bytes == Encode(Decode(bytes).value.text) + Decode(bytes).value.pending
    ensures Held(Decode(bytes).value.pending)
    decreases |bytes|
  {
    hide Decode, Encode, Complete, Begins, EncodeChar, Character, First;
    Nothing();
    if bytes != [] {
      var s, rest := Cases(bytes);
      if Complete(s) {
        DecodeStep(s, rest);
        DecodedText(rest);
        DecodedEncodes(s);
        var d := Decode(rest).value;
        EncodeCons(Character(s), d.text);
        assert s + (Encode(d.text) + d.pending) == s + Encode(d.text) + d.pending;
      } else {
        assert [] + bytes == bytes;
      }
    }
  }

  /** The decoder yields a text and holds bytes back exactly when it was given the encoding of the text and then bytes
      that begin one more character. */
  lemma DecodesExactly(bytes: seq<Byte>, text: string, pending: seq<Byte>)
    ensures Decode(bytes) == Some(Decoded(text, pending)) <==> bytes == Encode(text) + pending && Held(pending)
  {
    hide Decode, Encode, Held;
    if Decode(bytes) == Some(Decoded(text, pending)) {
      DecodedText(bytes);
    } else if bytes == Encode(text) + pending && Held(pending) {
      EncodedText(text, pending);
    }
  }

  lemma {:induction false} EncodeCat(a: string, b: string)
    ensures Encode(a + b) == Encode(a) + Encode(b)
  {
    hide EncodeChar;
    if a == "" {
      assert a + b == b;
    } else {
      assert (a + b)[1..] == a[1..] + b;
      EncodeCat(a[1..], b);
    }
  }

  /** It raises an error exactly when no text begins with the bytes. */
  lemma DecodesPrefix(bytes: seq<Byte>)
    ensures Decode(bytes).Some? <==> exists text :: bytes <= Encode(text)
  {
    hide Begins, Complete, First, Character, EncodeChar;
    if Decode(bytes).Some? {
      var d := Decode(bytes).value;
      DecodedText(bytes);
      if d.pending != [] {
        BeginsExactly(d.pending);
        var c :| d.pending <= EncodeChar(c);
        EncodeCat(d.text, [c]);
        assert Encode([c]) == EncodeChar(c) + Encode("");
        assert bytes <= Encode(d.text + [c]);
      }
    } else if text :| bytes <= Encode(text) {
      var more := Encode(text)[|bytes|..];
      assert Encode(text) == bytes + more == Encode(text) + [];
      EncodedText(text, []);
      DecodeCat(bytes, more);
      assert false;
    }
  }

  // ---------------------------------------------------------------- piece by piece

  lemma BeginsPrefix(a: seq<Byte>, b: seq<Byte>)
    requires a != [] && Begins(First(a + b))
    ensures Begins(First(a)) && (Complete(First(a)) ==> First(a + b) == First(a))
  {
    assert First(a) <= First(a + b);
  }

  lemma RefusedFirst(bytes: seq<Byte>)
    requires bytes != [] && Decode(bytes).Some?
    ensures Begins(First(bytes))
  {
  }

  /** Decoding piece by piece gives the same text. */
  lemma {:induction false} DecodeCat(a: seq<Byte>, b: seq<Byte>)
    requires Decode(a + b).Some?
    ensures Decode(a).Some?
    ensures var first := Decode(a).value;
            var rest := Decode(first.pending + b);
            rest.Some? && Decode(a + b).value == Decoded(first.text + rest.value.text, rest.value.pending)
    decreases |a|
  {
    hide Decode, Complete, Begins, Character, First;
    Nothing();
    if a == [] {
      assert a + b == [] + b == b;
    } else {
      RefusedFirst(a + b);
      BeginsPrefix(a, b);
      var s, rest := Cases(a);
      if Complete(s) {
        DecodeStep(s, rest);
        DecodeStep(s, rest + b);
        assert a + b == s + (rest + b);
        DecodeCat(rest, b);
        var d := Decode(rest).value;
        assert [Character(s)] + (d.text + Decode(d.pending + b).value.text)
            == [Character(s)] + d.text + Decode(d.pending + b).value.text;
      }
    }
  }

  /** A first part that decodes leaves the trouble to the rest. */
  lemma {:induction false} DecodeCatBad(a: seq<Byte>, b: seq<Byte>)
    requires Decode(a + b).None? && Decode(a).Some?
    ensures var first := Decode(a).value;
            && Decode(first.pending + b).None?
            && Decodable(a + b) == first.text + Decodable(first.pending + b)
    decreases |a|
  {
    hide Decode, Decodable, Complete, Begins, Character, First;
    Nothing();
    if a == [] {
      assert a + b == [] + b == b;
    } else {
      var s, rest := Cases(a);
      if Complete(s) {
        DecodeStep(s, rest);
        DecodeStep(s, rest + b);
        assert a + b == s + (rest + b);
        DecodeCatBad(rest, b);
        var d := Decode(rest).value;
        assert [Character(s)] + (d.text + Decodable(d.pending + b)) == [Character(s)] + d.text + Decodable(d.pending + b);
      }
    }
  }

  /** Every character takes at least one byte, and the first one a byte beyond those held back. */
  lemma {:induction false} DecodeLength(bytes: seq<Byte>)
    requires Decode(bytes).Some?
    ensures |Decode(bytes).value.text| <= |bytes|
    decreases |bytes|
  {
    hide Decode, Complete, Begins, Character, First;
    Nothing();
    if bytes != [] {
      var s, rest := Cases(bytes);
      if Complete(s) {
        DecodeStep(s, rest);
        DecodeLength(rest);
      }
    }
  }

  lemma HeldFirst(pending: seq<Byte>, chunk: seq<Byte>)
    requires Held(pending) && pending != []
    ensures Complete(First(pending + chunk)) ==> |First(pending + chunk)| > |pending|
  {
  }

  lemma ChunkLength(pending: seq<Byte>, chunk: seq<Byte>)
    requires Held(pending) && Decode(pending + chunk).Some?
    ensures |Decode(pending + chunk).value.text| <= |chunk|
  {
    hide Decode, Complete, Begins, Character, First, Held;
    if pending == [] {
      assert pending + chunk == chunk;
      DecodeLength(chunk);
    } else {
      HeldFirst(pending, chunk);
      var s, rest := Cases(pending + chunk);
      if Complete(s) {
        DecodeStep(s, rest);
        DecodeLength(rest);
      }
    }
  }
}
