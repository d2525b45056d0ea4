/** The peers a configuration names, and what adding and removing one does to them
    (scripts/kdx-wg-server.py). */
module PeerConfig {
  import opened Prelude
  import opened ConfigText
  import opened ConfigSections

  type Key = string

  /** An address range of one IP version, both ends included. */
  datatype Network = Network(version: nat, first: nat, last: nat)

  type Address = nat

  function Host(a: Address): Network {
    Network(4, a, a)
  }

  /** The network is of the address's IP version and contains it. */
  predicate Covers(n: Network, a: Address) {
    n.version == 4 && n.first <= a <= n.last
  }

  /** The notation of addresses, which belongs to Python's ipaddress module: reading a network, reading
      an interface address as a network of one, and writing an address. */
  datatype Notation = Notation(network: string -> Option<Network>, host: string -> Option<Network>,
                               show: Address -> string)

  predicate Digits(s: string) {
    s != "" && forall i | 0 <= i < |s| :: '0' <= s[i] <= '9' || s[i] == '.'
  }

  /** What is used of it: an address that was written down reads back as itself. */
  ghost predicate Sound(n: Notation) {
    forall a: Address {:trigger n.show(a)} :: Digits(n.show(a)) && n.network(n.show(a) + "/32") == Some(Host(a))
  }

  // ---------------------------------------------------------------- keys

  predicate Base64(c: char) {
    'A' <= c <= 'Z' || 'a' <= c <= 'z' || '0' <= c <= '9' || c == '+' || c == '/'
  }

  /** 32 bytes in base64, not all of them zero. */
  predicate ValidKey(key: string) {
    && |key| == 44 && key[43] == '='
    && (forall i | 0 <= i < 43 :: Base64(key[i]))
    && !((forall i | 0 <= i < 42 :: key[i] == 'A') && 'A' <= key[42] <= 'D')
  }

  // ---------------------------------------------------------------- reading

  function Split(s: string, c: char): (r: seq<string>)
    ensures |r| > 0
  {
    if s == "" then [""]
    else
      var rest := Split(s[1..], c);
      if s[0] == c then [""] + rest else [[s[0]] + rest[0]] + rest[1..]
  }

  function ReadNetworks(n: Notation, items: seq<string>): Option<seq<Network>> {
    if items == [] then Some([])
    else
      var first := n.network(Strip(items[0]));
      var rest := ReadNetworks(n, items[1..]);
      if first.Some? && rest.Some? then Some([first.value] + rest.value) else None
  }

  /** The items of all values, separated by commas. */
  function Items(values: seq<string>): seq<string> {
    if values == [] then [] else Split(values[0], ',') + Items(values[1..])
  }

  /** The block begins, white space aside, with the title of a peer. */
  predicate IsPeer(block: string) {
    PEER <= TrimLeft(block)
  }

  /** The loop of `peers`; `None` stands for its error. */
  function Collect(n: Notation, bs: seq<string>, found: map<Key, seq<Network>>): Option<map<Key, seq<Network>>> {
    if bs == [] then Some(found)
    else if !IsPeer(bs[0]) then Collect(n, bs[1..], found)
    else
      var keys := Values(bs[0], "publickey");
      var networks := ReadNetworks(n, Items(Values(bs[0], "allowedips")));
      if |keys| != 1 || keys[0] in found || !ValidKey(keys[0]) || networks.None? then None
      else Collect(n, bs[1..], found[keys[0] := networks.value])
  }

  function Peers(n: Notation, text: string): Option<map<Key, seq<Network>>> {
    Collect(n, Blocks(text), map[])
  }

  // ---------------------------------------------------------------- white space does not matter

  lemma TrimRightSplit(s: string) returns (w: string)
    ensures Blank(w) && s == TrimRight(s) + w
  {
    if s != "" && Space(s[|s| - 1]) {
      var v := TrimRightSplit(s[..|s| - 1]);
      w := v + [s[|s| - 1]];
    } else {
      w := "";
    }
  }

  lemma ReadLineSpace(l: string, c: char)
    requires Space(c)
    ensures FieldOf(l + [c]) == FieldOf(l)
  {
    BeforeSpace(l, c);
    if '#' !in l {
      TrimLeftCat(l, [c]);
      if Blank(l) {
        TrimLeftBlank(l);
        TrimLeftBlank([c]);
      } else {
        TrimRightSpace(TrimLeft(l), c);
      }
    }
  }

  lemma {:induction false} BeforeSpace(l: string, c: char)
    requires Space(c)
    ensures Before(l + [c], '#') == if '#' in l then Before(l, '#') else l + [c]
    ensures '#' !in l ==> Before(l, '#') == l
  {
    if l != "" {
      assert (l + [c])[1..] == l[1..] + [c];
      BeforeSpace(l[1..], c);
    }
  }

  function Longer(ls: seq<string>, c: char): seq<string>
    requires |ls| > 0
  {
    if Break(c) then ls + [""] else ls[..|ls| - 1] + [ls[|ls| - 1] + [c]]
  }

  lemma LinesApart(ls: seq<string>, c: char)
    requires |ls| > 0
    ensures [""] + Longer(ls, c) == Longer([""] + ls, c)
  {
    assert ([""] + ls)[..|ls|] == [""] + ls[..|ls| - 1];
  }

  lemma LinesOn(d: char, ls: seq<string>, c: char)
    requires |ls| > 0
    ensures [[d] + Longer(ls, c)[0]] + Longer(ls, c)[1..] == Longer([[d] + ls[0]] + ls[1..], c)
  {
    if |ls| == 1 {
      assert Break(c) || Longer(ls, c) == [ls[0] + [c]];
      assert [d] + ls[0] + [c] == [d] + (ls[0] + [c]);
    }
  }

  lemma {:induction false} LinesSpace(x: string, c: char)
    ensures Lines(x + [c]) == Longer(Lines(x), c)
  {
    if x == "" {
      assert x + [c] == [c] && [c][1..] == "";
      assert [c] + "" == "" + [c];
      assert Lines([c]) == if Break(c) then ["", ""] else [[c]];
    } else {
      assert (x + [c])[1..] == x[1..] + [c];
      LinesSpace(x[1..], c);
      if Break(x[0]) {
        LinesApart(Lines(x[1..]), c);
      } else {
        LinesOn(x[0], Lines(x[1..]), c);
      }
    }
  }

  lemma {:induction false} ReadLinesCat(a: seq<string>, b: seq<string>)
    ensures ReadLines(a + b) == ReadLines(a) + ReadLines(b)
  {
    hide FieldOf;
    if a == [] {
      assert a + b == b;
    } else {
      assert (a + b)[1..] == a[1..] + b;
      ReadLinesCat(a[1..], b);
      assert FieldOf(a[0]) + (ReadLines(a[1..]) + ReadLines(b)) == FieldOf(a[0]) + ReadLines(a[1..]) + ReadLines(b);
    }
  }

  lemma FieldsSpace(x: string, c: char)
    requires Space(c)
    ensures Fields(x + [c]) == Fields(x)
  {
    var ls := Lines(x);
    LinesSpace(x, c);
    var front, last := ls[..|ls| - 1], ls[|ls| - 1];
    assert ls == front + [last];
    hide FieldOf, Lines;
    ReadLinesCat(front, [last]);
    if Break(c) {
      ReadLinesCat(ls, [""]);
      ReadLineEmpty();
    } else {
      ReadLinesCat(front, [last + [c]]);
      ReadLineSpace(last, c);
    }
  }

  lemma ReadLineEmpty()
    ensures FieldOf("") == []
  {
  }

  lemma {:induction false} FieldsTail(x: string, w: string)
    requires Blank(w)
    ensures Fields(x + w) == Fields(x)
  {
    if w == "" {
      assert x + w == x;
    } else {
      var v := w[..|w| - 1];
      FieldsTail(x, v);
      FieldsSpace(x + v, w[|w| - 1]);
      assert x + w == x + v + [w[|w| - 1]];
    }
  }

  lemma PrefixTail(token: string, y: string, w: string)
    requires Token(token) && Blank(w)
    ensures token <= y + w <==> token <= y
  {
    if |token| <= |y| {
      assert (y + w)[..|token|] == y[..|token|];
    } else if w != "" {
      assert (y + w)[|y|] == w[0];
      assert !Space(token[|y|]);
    } else {
      assert y + w == y;
    }
  }

  /** A block and its section hold the same fields and are peers alike. */
  lemma SectionFields(b: string)
    ensures Fields(TrimRight(b)) == Fields(b) && IsPeer(TrimRight(b)) == IsPeer(b)
  {
    var w := TrimRightSplit(b);
    var x := TrimRight(b);
    FieldsTail(x, w);
    TrimLeftCat(x, w);
    TrimLeftBlank(w);
    if Blank(x) {
      TrimLeftBlank(x);
    } else {
      PrefixTail(PEER, TrimLeft(x), w);
    }
  }
}
