/** The framing of the Guacamole protocol (backend/app/services/guacamole.py): the printer and the parser of one
    instruction. */
module GuacamoleSpec {
  import opened Prelude

  const MAX_INSTRUCTION: nat := 4 * 1024 * 1024
  const MAX_ELEMENTS: nat := 256

  // ---------------------------------------------------------------- numbers

  function Digit(d: nat): char
    requires d < 10
  {
    '0' + d as char
  }

  function Decimal(n: nat): string {
    if n < 10 then [Digit(n)] else Decimal(n / 10) + [Digit(n % 10)]
  }

  /** One to seven decimal digits. */
  predicate IsLength(prefix: string) {
    0 < |prefix| <= 7 && forall i | 0 <= i < |prefix| :: IsDigit(prefix[i])
  }

  // ---------------------------------------------------------------- printing

  function Element(v: string): string {
    Decimal(|v|) + "." + v
  }

  /** The elements separated by commas, and a semicolon. */
  function Instruction(vs: seq<string>): string {
    if |vs| == 0 then ";"
    else if |vs| == 1 then Element(vs[0]) + ";"
    else Element(vs[0]) + "," + Instruction(vs[1..])
  }

  // ---------------------------------------------------------------- parsing

  datatype Parse = Parsed(elements: seq<string>, consumed: nat) | Incomplete | Invalid

  /** The first dot from `offset` on, or the end of the text. */
  function FindDot(data: string, offset: nat): (dot: nat)
    requires offset <= |data|
    ensures offset <= dot <= |data|
    ensures dot < |data| ==> data[dot] == '.'
    ensures forall i | offset <= i < dot :: data[i] != '.'
    decreases |data| - offset
  {
    if offset == |data| || data[offset] == '.' then offset else FindDot(data, offset + 1)
  }

  /** One element up to its delimiter at `end`. */
  datatype Head = Complete(value: string, end: nat) | Short | Bad

  function ReadHead(data: string, offset: nat): (h: Head)
    requires offset <= |data|
    ensures h.Complete? ==> offset < h.end < |data| && h.end <= MAX_INSTRUCTION
  {
    var dot := FindDot(data, offset);
    if dot == |data| then if |data| - offset > 7 then Bad else Short
    else if !IsLength(data[offset..dot]) then Bad
    else
      var end := dot + 1 + Number(data[offset..dot]);
      if end > MAX_INSTRUCTION then Bad
      else if end >= |data| then Short
      else Complete(data[dot + 1..end], end)
  }

  /** The loop of `parse_instruction` from `offset` on. */
  function ParseFrom(data: string, offset: nat, elements: seq<string>): Parse
    requires offset <= |data|
    decreases |data| - offset
  {
    match ReadHead(data, offset)
    case Short => Incomplete
    case Bad => Invalid
    case Complete(value, end) =>
      if |elements| + 1 > MAX_ELEMENTS then Invalid
      else if data[end] == ';' then Parsed(elements + [value], end + 1)
      else if data[end] != ',' then Invalid
      else ParseFrom(data, end + 1, elements + [value])
  }

  function ParseInstruction(data: string): Parse {
    ParseFrom(data, 0, [])
  }

  // ---------------------------------------------------------------- numbers read back

  lemma {:induction false} DecimalNumber(n: nat)
    ensures |Decimal(n)| > 0 && forall i | 0 <= i < |Decimal(n)| :: IsDigit(Decimal(n)[i])
    ensures Number(Decimal(n)) == n
  {
    if n >= 10 {
      DecimalNumber(n / 10);
      var s := Decimal(n / 10) + [Digit(n % 10)];
      assert s[..|s| - 1] == Decimal(n / 10);
    } else {
      assert [Digit(n)][..0] == "";
    }
  }

  lemma {:induction false} DecimalWidth(n: nat, k: nat, bound: nat)
    requires 0 < k && n < bound && bound == Power(k)
    ensures |Decimal(n)| <= k
    decreases k
  {
    if n >= 10 {
      DecimalWidth(n / 10, k - 1, Power(k - 1));
    }
  }

  function Power(k: nat): nat {
    if k == 0 then 1 else 10 * Power(k - 1)
  }

  lemma DecimalLength(n: nat)
    requires n <= MAX_INSTRUCTION
    ensures IsLength(Decimal(n)) && Number(Decimal(n)) == n
  {
    DecimalNumber(n);
    assert Power(7) == 10_000_000 by {
      assert Power(3) == 1000;
      assert Power(4) == 10 * Power(3) && Power(5) == 10 * Power(4) && Power(6) == 10 * Power(5);
    }
    DecimalWidth(n, 7, 10_000_000);
  }

  lemma {:induction false} FindDotAt(data: string, offset: nat, dot: nat)
    requires offset <= dot < |data| && data[dot] == '.'
    requires forall i | offset <= i < dot :: data[i] != '.'
    ensures FindDot(data, offset) == dot
  {
  }

  // ---------------------------------------------------------------- round trip

  lemma NoDot(s: string)
    requires IsLength(s)
    ensures '.' !in s
  {
  }

  lemma FindDotIn(data: string, offset: nat, dot: nat)
    requires offset <= dot < |data| && data[dot] == '.' && '.' !in data[offset..dot]
    ensures FindDot(data, offset) == dot
  {
    forall i | offset <= i < dot
      ensures data[i] != '.'
    {
      assert data[i] == data[offset..dot][i - offset];
    }
    FindDotAt(data, offset, dot);
  }

  /** Where the three parts of an element are. */
  lemma ElementParts(data: string, offset: nat, prefix: string, v: string)
    requires offset + |prefix| + 1 + |v| <= |data|
    requires data[offset..offset + |prefix| + 1 + |v|] == prefix + "." + v
    ensures var dot := offset + |prefix|;
            data[offset..dot] == prefix && data[dot] == '.' && data[dot + 1..dot + 1 + |v|] == v
  {
    var part := prefix + "." + v;
    assert forall i | offset <= i < offset + |part| :: data[i] == part[i - offset];
  }

  /** One element in front of a delimiter is read back. */
  lemma ReadElement(data: string, offset: nat, v: string)
    requires offset <= |data| && |data| - offset > |Element(v)|
    requires data[offset..offset + |Element(v)|] == Element(v)
    requires offset + |Element(v)| <= MAX_INSTRUCTION
    ensures ReadHead(data, offset) == Complete(v, offset + |Element(v)|)
  {
    DecimalLength(|v|);
    NoDot(Decimal(|v|));
    hide Decimal, Number, FindDot, IsLength;
    ElementParts(data, offset, Decimal(|v|), v);
    FindDotIn(data, offset, offset + |Decimal(|v|)|);
  }

  lemma ParseStep(data: string, offset: nat, elements: seq<string>, v: string, end: nat)
    requires offset <= |data| && ReadHead(data, offset) == Complete(v, end) && |elements| < MAX_ELEMENTS
    ensures data[end] == ';' ==> ParseFrom(data, offset, elements) == Parsed(elements + [v], end + 1)
    ensures data[end] == ',' ==> ParseFrom(data, offset, elements) == ParseFrom(data, end + 1, elements + [v])
  {
    hide ReadHead;
  }

  /** The parser behind the first element. */
  lemma ReadFirst(pre: string, vs: seq<string>, text: string, rest: string, elements: seq<string>, end: nat)
    requires |vs| > 0 && |elements| < MAX_ELEMENTS
    requires text == Instruction(vs) && end == |pre| + |Element(vs[0])| && |pre| + |text| <= MAX_INSTRUCTION + 1
    ensures var data := pre + text + rest;
            && end < |data|
            && ParseFrom(data, |pre|, elements) == if |vs| == 1 then Parsed(elements + [vs[0]], end + 1)
                                                   else ParseFrom(data, end + 1, elements + [vs[0]])
  {
    InstructionStart(pre, vs, rest);
    hide *;
    var data := pre + text + rest;
    ReadElement(data, |pre|, vs[0]);
    ParseStep(data, |pre|, elements, vs[0], end);
  }

  lemma InstructionRest(pre: string, vs: seq<string>, rest: string)
    requires |vs| > 0
    ensures var first := Element(vs[0]);
            && (|vs| == 1 ==> |Instruction(vs)| == |first| + 1)
            && (|vs| > 1 ==> pre + Instruction(vs) + rest == pre + first + "," + Instruction(vs[1..]) + rest
                             && |Instruction(vs)| == |first| + 1 + |Instruction(vs[1..])|)
  {
    InstructionStart(pre, vs, rest);
    hide *;
  }

  lemma {:induction false} ReadInstruction(pre: string, vs: seq<string>, text: string, rest: string,
                                           elements: seq<string>)
    requires |vs| > 0 && |elements| + |vs| <= MAX_ELEMENTS
    requires text == Instruction(vs) && |pre| + |text| <= MAX_INSTRUCTION + 1
    ensures ParseFrom(pre + text + rest, |pre|, elements) == Parsed(elements + vs, |pre| + |text|)
    decreases |vs|
  {
    hide *;
    InstructionRest(pre, vs, rest);
    FirstAndRest(elements, vs);
    var end := |pre| + |Element(vs[0])|;
    ReadFirst(pre, vs, text, rest, elements, end);
    if |vs| > 1 {
      var pre' := pre + Element(vs[0]) + ",";
      ReadInstruction(pre', vs[1..], Instruction(vs[1..]), rest, elements + [vs[0]]);
      assert |pre'| == end + 1;
    }
  }

  lemma FirstAndRest(elements: seq<string>, vs: seq<string>)
    requires |vs| > 0
    ensures elements + [vs[0]] + vs[1..] == elements + vs
    ensures |vs| == 1 ==> elements + [vs[0]] == elements + vs
  {
  }

  lemma InstructionStart(pre: string, vs: seq<string>, rest: string)
    requires |vs| > 0
    ensures var data := pre + Instruction(vs) + rest;
            var first := Element(vs[0]);
            var end := |pre| + |first|;
            && |Instruction(vs)| > |first| && data[|pre|..end] == first
            && (|vs| == 1 ==> data[end] == ';' && |Instruction(vs)| == |first| + 1)
            && (|vs| > 1 ==> data[end] == ',' && data == pre + first + "," + Instruction(vs[1..]) + rest
                             && |Instruction(vs)| == |first| + 1 + |Instruction(vs[1..])|)
  {
    hide Element;
    var data := pre + Instruction(vs) + rest;
    var first := Element(vs[0]);
    if |vs| > 1 {
      assert Instruction(vs) == first + "," + Instruction(vs[1..]);
      assert data == pre + first + "," + Instruction(vs[1..]) + rest;
    }
  }

  lemma {:induction false} ParsedShape(data: string, offset: nat, elements: seq<string>)
    requires offset <= |data| && ParseFrom(data, offset, elements).Parsed?
    ensures var p := ParseFrom(data, offset, elements);
            offset < p.consumed <= |data| && p.consumed <= MAX_INSTRUCTION + 1
            && |elements| < |p.elements| <= MAX_ELEMENTS
    decreases |data| - offset
  {
    hide ReadHead;
    var h := ReadHead(data, offset);
    if data[h.end] == ',' {
      ParsedShape(data, h.end + 1, elements + [h.value]);
    }
  }

  /** What was printed is read back in front of anything, exactly when it keeps the two limits. */
  lemma RoundTrip(vs: seq<string>, rest: string)
    ensures ParseInstruction(Instruction(vs) + rest) == Parsed(vs, |Instruction(vs)|)
       <==> 1 <= |vs| <= MAX_ELEMENTS && |Instruction(vs)| <= MAX_INSTRUCTION + 1
  {
    var data := Instruction(vs) + rest;
    if 1 <= |vs| <= MAX_ELEMENTS && |Instruction(vs)| <= MAX_INSTRUCTION + 1 {
      assert "" + Instruction(vs) + rest == data;
      ReadInstruction("", vs, Instruction(vs), rest, []);
      assert [] + vs == vs;
    } else if ParseInstruction(data).Parsed? {
      ParsedShape(data, 0, []);
    }
  }

  // ---------------------------------------------------------------- more text

  lemma FindDotMore(data: string, more: string, offset: nat)
    requires offset <= |data|
    ensures FindDot(data, offset) < |data| ==> FindDot(data + more, offset) == FindDot(data, offset)
    ensures FindDot(data, offset) == |data| ==> FindDot(data + more, offset) >= |data|
  {
    hide FindDot;
    var dot, found := FindDot(data, offset), FindDot(data + more, offset);
    assert forall i | 0 <= i < |data| :: (data + more)[i] == data[i];
  }

  lemma HeadMore(data: string, more: string, offset: nat)
    requires offset <= |data| && ReadHead(data, offset) != Short
    ensures ReadHead(data + more, offset) == ReadHead(data, offset)
  {
    FindDotMore(data, more, offset);
    hide FindDot, Number;
    var dot := FindDot(data, offset);
    if dot < |data| {
      assert (data + more)[offset..dot] == data[offset..dot];
      if IsLength(data[offset..dot]) {
        var end := dot + 1 + Number(data[offset..dot]);
        if end < |data| {
          assert (data + more)[dot + 1..end] == data[dot + 1..end];
        }
      }
    }
  }

  lemma HeadLess(data: string, k: nat, offset: nat)
    requires offset <= k <= |data| && ReadHead(data, offset).Complete? && ReadHead(data, offset).end < k
    ensures ReadHead(data[..k], offset) == ReadHead(data, offset)
  {
    var dot := FindDot(data, offset);
    var end := ReadHead(data, offset).end;
    hide Number;
    FindDotAt(data[..k], offset, dot);
    assert data[..k][offset..dot] == data[offset..dot];
    assert data[..k][dot + 1..end] == data[dot + 1..end];
  }

  /** More text never changes a verdict: an instruction stays the same instruction, an error stays an error. */
  lemma {:induction false} ParseMore(data: string, more: string, offset: nat, elements: seq<string>)
    requires offset <= |data|
    ensures ParseFrom(data, offset, elements) != Incomplete
        ==> ParseFrom(data + more, offset, elements) == ParseFrom(data, offset, elements)
    decreases |data| - offset
  {
    hide ReadHead;
    var h := ReadHead(data, offset);
    if h != Short {
      HeadMore(data, more, offset);
      if h.Complete? {
        assert (data + more)[h.end] == data[h.end];
        ParseMore(data, more, h.end + 1, elements + [h.value]);
      }
    }
  }

  /** The parser looks at nothing behind the instruction it found. */
  lemma {:induction false} ParseLess(data: string, k: nat, offset: nat, elements: seq<string>)
    requires offset <= k <= |data| && ParseFrom(data, offset, elements).Parsed?
    requires ParseFrom(data, offset, elements).consumed <= k
    ensures ParseFrom(data[..k], offset, elements) == ParseFrom(data, offset, elements)
    decreases |data| - offset
  {
    hide ReadHead;
    var h := ReadHead(data, offset);
    if data[h.end] == ',' {
      ParsedShape(data, h.end + 1, elements + [h.value]);
    }
    HeadLess(data, k, offset);
    if data[h.end] == ',' {
      ParseLess(data, k, h.end + 1, elements + [h.value]);
    }
  }

  /** An instruction is recognised at its last character, not before and not later. */
  lemma Recognised(data: string, k: nat)
    requires ParseInstruction(data).Parsed? && k <= |data|
    ensures ParseInstruction(data[..k]) == if k < ParseInstruction(data).consumed then Incomplete else ParseInstruction(data)
  {
    hide ParseFrom;
    ParsedShape(data, 0, []);
    if k < ParseInstruction(data).consumed {
      ParseMore(data[..k], data[k..], 0, []);
      assert data[..k] + data[k..] == data;
      if ParseInstruction(data[..k]).Parsed? {
        ParsedShape(data[..k], 0, []);
      }
    } else {
      ParseLess(data, k, 0, []);
    }
  }

  /** Every strict prefix of a printed instruction is incomplete. */
  lemma PrefixIncomplete(vs: seq<string>, k: nat)
    requires 1 <= |vs| <= MAX_ELEMENTS && |Instruction(vs)| <= MAX_INSTRUCTION + 1 && k < |Instruction(vs)|
    ensures ParseInstruction(Instruction(vs)[..k]) == Incomplete
  {
    RoundTrip(vs, "");
    assert Instruction(vs) + "" == Instruction(vs);
    Recognised(Instruction(vs), k);
  }
}
