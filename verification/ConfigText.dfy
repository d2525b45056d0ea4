/** The WireGuard configuration as text (scripts/kdx-wg-server.py): cutting it into blocks, reading the fields of
    a block, and what is left of a text when blocks are added or taken out. */
module ConfigText {
  import opened Prelude

  // ---------------------------------------------------------------- characters

  /** Python breaks lines here. */
  predicate Break(c: char) {
    c in {'\n', '\r', '\U{b}', '\U{c}', '\U{1c}', '\U{1d}', '\U{1e}', '\U{85}', '\U{2028}', '\U{2029}'}
  }

  /** White space, for strings and for patterns alike. */
  predicate Space(c: char) {
    || Break(c) || c in {'\t', ' ', '\U{1f}', '\U{a0}', '\U{1680}', '\U{202f}', '\U{205f}', '\U{3000}'}
    || '\U{2000}' <= c <= '\U{200a}'
  }

  /** Lower case as far as it can produce an ASCII letter; U+212A is the Kelvin sign. */
  function LowerChar(c: char): char {
    if 'A' <= c <= 'Z' then c + 32 as char else if c == '\U{212a}' then 'k' else c
  }

  function Lower(s: string): string {
    seq(|s|, i requires 0 <= i < |s| => LowerChar(s[i]))
  }

  function TrimLeft(s: string): string {
    if s != "" && Space(s[0]) then TrimLeft(s[1..]) else s
  }

  /** White space taken off the end. */
  function TrimRight(s: string): string {
    if s != "" && Space(s[|s| - 1]) then TrimRight(s[..|s| - 1]) else s
  }

  function Strip(s: string): string {
    TrimRight(TrimLeft(s))
  }

  predicate Blank(s: string) {
    forall i | 0 <= i < |s| :: Space(s[i])
  }

  // ---------------------------------------------------------------- blocks

  const INTERFACE := "[Interface]"
  const PEER := "[Peer]"

  /** Nothing but white space and a comment up to the end of a line; the white space may run over several lines. */
  predicate EndsLine(s: string) {
    s == "" || s[0] == '\n' || s[0] == '#' || (Space(s[0]) && EndsLine(s[1..]))
  }

  predicate Titled(s: string) {
    || (INTERFACE <= s && EndsLine(s[|INTERFACE|..]))
    || (PEER <= s && EndsLine(s[|PEER|..]))
  }

  /** The header pattern matches at the start of `s`; leading white space may run over several lines. */
  predicate Header(s: string) {
    Titled(TrimLeft(s))
  }

  /** The pieces of a text cut in front of every line at which the header pattern matches. */
  function Pieces(t: string): (r: seq<string>)
    ensures |r| > 0
  {
    if t == "" then [""]
    else
      var rest := Pieces(t[1..]);
      if t[0] == '\n' && Header(t[1..]) then ["\n"] + rest
      else [[t[0]] + rest[0]] + rest[1..]
  }

  /** The pattern is matched without width, so a match at the very start leaves an empty first piece. */
  function Blocks(t: string): seq<string> {
    if Header(t) then [""] + Pieces(t) else Pieces(t)
  }

  lemma {:induction false} PiecesConcat(t: string)
    ensures Concat(Pieces(t)) == t
  {
    if t != "" {
      PiecesConcat(t[1..]);
      var rest := Pieces(t[1..]);
      assert t == [t[0]] + t[1..];
      if t[0] == '\n' && Header(t[1..]) {
        assert (["\n"] + rest)[1..] == rest;
      } else {
        assert ([[t[0]] + rest[0]] + rest[1..])[1..] == rest[1..];
        assert Concat(rest) == rest[0] + Concat(rest[1..]);
      }
    }
  }

  /** Nothing of the text is lost by cutting it. */
  lemma BlocksConcat(t: string)
    ensures Concat(Blocks(t)) == t
  {
    PiecesConcat(t);
    if Header(t) {
      assert ([""] + Pieces(t))[1..] == Pieces(t);
    }
  }

  // ---------------------------------------------------------------- fields of a block

  /** The lines of a text; a line end of two characters only adds an empty line here. */
  function Lines(s: string): (r: seq<string>)
    ensures |r| > 0
  {
    if s == "" then [""]
    else
      var rest := Lines(s[1..]);
      if Break(s[0]) then [""] + rest else [[s[0]] + rest[0]] + rest[1..]
  }

  /** Everything in front of the first `c`. */
  function Before(s: string, c: char): (r: string)
    ensures r <= s && c !in r
    ensures c in s ==> |r| < |s| && s[|r|] == c
  {
    if s == "" || s[0] == c then "" else [s[0]] + Before(s[1..], c)
  }

  datatype Field = Field(key: string, value: string)

  /** One line: comment off, strip, and a key and a value if there is an equals sign. */
  function ReadLine(line: string): Option<Field> {
    var text := Strip(Before(line, '#'));
    if '=' !in text then None
    else
      var k := Before(text, '=');
      Some(Field(Lower(Strip(k)), Strip(text[|k| + 1..])))
  }

  function FieldOf(line: string): seq<Field> {
    var f := ReadLine(line);
    if f.Some? then [f.value] else []
  }

  function ReadLines(lines: seq<string>): seq<Field> {
    if lines == [] then [] else FieldOf(lines[0]) + ReadLines(lines[1..])
  }

  /** The fields of a block, in order. */
  function Fields(block: string): seq<Field> {
    ReadLines(Lines(block))
  }

  function Select(fs: seq<Field>, key: string): seq<string> {
    if fs == [] then []
    else (if fs[0].key == key then [fs[0].value] else []) + Select(fs[1..], key)
  }

  /** The values of one key, in order. */
  function Values(block: string, key: string): seq<string> {
    Select(Fields(block), key)
  }
}
