/** Adding a peer at the end of a configuration and taking one out block by block (scripts/kdx-wg-server.py). */
module PeerEdits {
  import opened Prelude
  import opened ConfigText
  import opened ConfigSections
  import opened PeerConfig

  function Cidr(n: Notation, a: Address): string {
    n.show(a) + "/32"
  }

  function Line(l: string, rest: string): string {
    l + "\n" + rest
  }

  /** The block `add` appends. */
  function Entry(n: Notation, name: string, key: Key, a: Address): string {
    Line("[Peer]", Line("# KDX InfraBox " + name, Line("PublicKey = " + key, Line("AllowedIPs = " + Cidr(n, a), ""))))
  }

  function Added(n: Notation, before: string, name: string, key: Key, a: Address): string {
    TrimRight(before) + "\n\n" + Entry(n, name, key, a)
  }

  /** The blocks `remove` keeps. */
  function Without(bs: seq<string>, key: Key): seq<string> {
    if bs == [] then []
    else (if Values(bs[0], "publickey") == [key] then [] else [bs[0]]) + Without(bs[1..], key)
  }

  function Removed(before: string, key: Key): string {
    Concat(Without(Blocks(before), key))
  }

  /** A host name as validated: lower-case letters, digits and inner hyphens, at most 63 characters. */
  predicate ValidName(name: string) {
    && 1 <= |name| <= 63 && name[0] != '-' && name[|name| - 1] != '-'
    && forall i | 0 <= i < |name| :: 'a' <= name[i] <= 'z' || '0' <= name[i] <= '9' || name[i] == '-'
  }

  // ---------------------------------------------------------------- peers from sections

  lemma {:induction false} CollectTrimmed(n: Notation, bs: seq<string>, found: map<Key, seq<Network>>)
    ensures Collect(n, Trimmed(bs), found) == Collect(n, bs, found)
    decreases |bs|
  {
    if bs != [] {
      SectionFields(bs[0]);
      hide Fields, IsPeer, ValidKey, ReadNetworks, Items;
      var s := TrimRight(bs[0]);
      assert s == "" ==> !IsPeer(s) by {
        EmptyNoPeer();
      }
      if s == "" {
        assert Trimmed(bs) == Trimmed(bs[1..]);
        CollectTrimmed(n, bs[1..], found);
      } else {
        assert Trimmed(bs)[0] == s && Trimmed(bs)[1..] == Trimmed(bs[1..]);
        CollectTrimmed(n, bs[1..], found);
        if IsPeer(s) && |Values(s, "publickey")| == 1 {
          var networks := ReadNetworks(n, Items(Values(s, "allowedips")));
          if networks.Some? {
            CollectTrimmed(n, bs[1..], found[Values(s, "publickey")[0] := networks.value]);
          }
        }
      }
    }
  }

  lemma EmptyNoPeer()
    ensures !IsPeer("")
  {
  }

  /** The peers of a text are the peers of its sections. */
  lemma PeersOfSections(n: Notation, t: string)
    ensures Peers(n, t) == Collect(n, Sections(t), map[])
  {
    CollectTrimmed(n, Blocks(t), map[]);
  }

  lemma {:induction false} CollectCat(n: Notation, a: seq<string>, b: seq<string>, found: map<Key, seq<Network>>)
    ensures Collect(n, a + b, found)
         == if Collect(n, a, found).None? then None else Collect(n, b, Collect(n, a, found).value)
    decreases |a|
  {
    hide Fields, IsPeer, ValidKey, ReadNetworks, Items;
    if a == [] {
      assert a + b == b;
    } else {
      assert (a + b)[1..] == a[1..] + b;
      CollectCat(n, a[1..], b, found);
      if IsPeer(a[0]) && |Values(a[0], "publickey")| == 1 {
        var networks := ReadNetworks(n, Items(Values(a[0], "allowedips")));
        if networks.Some? {
          CollectCat(n, a[1..], b, found[Values(a[0], "publickey")[0] := networks.value]);
        }
      }
    }
  }

  lemma {:induction false} CollectWithout(n: Notation, bs: seq<string>, found: map<Key, seq<Network>>, key: Key)
    requires Collect(n, bs, found).Some?
    ensures Collect(n, Without(bs, key), found - {key}) == Some(Collect(n, bs, found).value - {key})
    decreases |bs|
  {
    hide Fields, IsPeer, ValidKey, ReadNetworks, Items;
    if bs != [] {
      var keys := Values(bs[0], "publickey");
      if keys != [key] {
        assert Without(bs, key)[0] == bs[0] && Without(bs, key)[1..] == Without(bs[1..], key);
      } else {
        assert Without(bs, key) == Without(bs[1..], key);
      }
      if !IsPeer(bs[0]) {
        CollectWithout(n, bs[1..], found, key);
      } else {
        var networks := ReadNetworks(n, Items(Values(bs[0], "allowedips"))).value;
        CollectWithout(n, bs[1..], found[keys[0] := networks], key);
        assert keys == [keys[0]];
        if keys[0] == key {
          assert found[key := networks] - {key} == found - {key};
        } else {
          assert found[keys[0] := networks] - {key} == (found - {key})[keys[0] := networks];
        }
      }
    }
  }

  // ---------------------------------------------------------------- taking blocks out

  lemma EmptyNoFields()
    ensures Fields("") == []
  {
    ReadLineEmpty();
    assert Lines("") == [""];
  }

  function Kept(b: string, key: Key): seq<string> {
    if Values(b, "publickey") == [key] then [] else [b]
  }

  function Shown(b: string): seq<string> {
    if TrimRight(b) == "" then [] else [TrimRight(b)]
  }

  lemma WithoutCons(b: string, rest: seq<string>, key: Key)
    ensures Without([b] + rest, key) == Kept(b, key) + Without(rest, key)
  {
    hide Values;
    assert ([b] + rest)[1..] == rest;
  }

  lemma TrimmedCons(b: string, rest: seq<string>)
    ensures Trimmed([b] + rest) == Shown(b) + Trimmed(rest)
  {
    assert ([b] + rest)[1..] == rest;
  }

  lemma TrimmedKept(b: string, rest: seq<string>, key: Key)
    ensures Trimmed(Kept(b, key) + rest) == (if Values(b, "publickey") == [key] then [] else Shown(b)) + Trimmed(rest)
  {
    TrimmedCons(b, rest);
    assert [] + rest == rest;
  }

  lemma WithoutShown(b: string, rest: seq<string>, key: Key)
    ensures Without(Shown(b) + rest, key)
         == (if Values(b, "publickey") == [key] then [] else Shown(b)) + Without(rest, key)
  {
    SectionFields(b);
    EmptyNoFields();
    hide Fields;
    WithoutCons(TrimRight(b), rest, key);
    assert [] + rest == rest;
  }

  lemma {:induction false} WithoutTrimmed(bs: seq<string>, key: Key)
    ensures Trimmed(Without(bs, key)) == Without(Trimmed(bs), key)
    decreases |bs|
  {
    if bs != [] {
      var b, rest := bs[0], bs[1..];
      WithoutTrimmed(rest, key);
      assert bs == [b] + rest;
      hide Trimmed, Without, Kept, Shown;
      WithoutCons(b, rest, key);
      TrimmedCons(b, rest);
      TrimmedKept(b, Without(rest, key), key);
      WithoutShown(b, Trimmed(rest), key);
    }
  }

  lemma {:induction false} WithoutAmong(bs: seq<string>, key: Key)
    ensures forall b | b in Without(bs, key) :: b in bs
    decreases |bs|
  {
    if bs != [] {
      WithoutAmong(bs[1..], key);
      hide Values;
      assert forall b | b in bs[1..] :: b in bs;
    }
  }

  lemma ProperCons(b: string, bs: seq<string>)
    requires Proper(bs) && Pieces(b) == [b] && (bs == [] || EndsText(b))
    requires forall x | x in bs :: Blank(x) || Header(x)
    ensures Proper([b] + bs)
  {
    hide Pieces, Header, Blank, EndsText;
  }

  lemma ProperRest(bs: seq<string>)
    requires Proper(bs) && bs != []
    ensures Proper(bs[1..]) && forall x | x in bs[1..] :: Blank(x) || Header(x)
  {
    hide Pieces, Header, Blank, EndsText;
  }

  lemma {:induction false} WithoutProper(bs: seq<string>, key: Key)
    requires Proper(bs)
    ensures Proper(Without(bs, key))
    decreases |bs|
  {
    if bs != [] {
      ProperRest(bs);
      WithoutProper(bs[1..], key);
      WithoutAmong(bs[1..], key);
      assert Pieces(bs[0]) == [bs[0]] && (bs[1..] == [] || EndsText(bs[0]));
      hide Values, Pieces, Header, Blank, EndsText, Proper;
      ProperCons(bs[0], Without(bs[1..], key));
    }
  }

  /** Removal keeps every other section as it was and drops exactly those that name the key. */
  lemma RemovedSections(before: string, key: Key)
    ensures Sections(Removed(before, key)) == Without(Sections(before), key)
  {
    BlocksProper(before);
    WithoutProper(Blocks(before), key);
    JoinSections(Without(Blocks(before), key));
    WithoutTrimmed(Blocks(before), key);
  }

  /** After a removal the configuration names the same peers except that one. */
  lemma PeersRemoved(n: Notation, before: string, key: Key)
    requires Peers(n, before).Some?
    ensures Peers(n, Removed(before, key)) == Some(Peers(n, before).value - {key})
  {
    PeersOfSections(n, before);
    PeersOfSections(n, Removed(before, key));
    RemovedSections(before, key);
    CollectWithout(n, Sections(before), map[], key);
    var none: map<Key, seq<Network>> := map[];
    assert none - {key} == none;
  }

  // ---------------------------------------------------------------- the new block

  predicate OneLine(l: string) {
    forall i | 0 <= i < |l| :: !Break(l[i])
  }

  lemma {:induction false} LinesLine(l: string, rest: string)
    requires OneLine(l)
    ensures Lines(Line(l, rest)) == [l] + Lines(rest)
  {
    if l == "" {
      assert Line(l, rest)[0] == '\n' && Line(l, rest)[1..] == rest;
    } else {
      assert Line(l, rest)[1..] == Line(l[1..], rest);
      LinesLine(l[1..], rest);
      assert ([l[1..]] + Lines(rest))[1..] == Lines(rest);
      assert l == [l[0]] + l[1..];
    }
  }

  lemma FieldsLine(l: string, rest: string)
    requires OneLine(l)
    ensures Fields(Line(l, rest)) == FieldOf(l) + Fields(rest)
  {
    LinesLine(l, rest);
    hide FieldOf, Lines, Line;
    ReadLinesCat([l], Lines(rest));
    assert ReadLines([l]) == FieldOf(l);
  }

  lemma {:induction false} PiecesLine(l: string, rest: string)
    requires OneLine(l) && !Header(rest) && Pieces(rest) == [rest]
    ensures Pieces(Line(l, rest)) == [Line(l, rest)]
  {
    if l == "" {
      assert Line(l, rest)[0] == '\n' && Line(l, rest)[1..] == rest;
      assert Line(l, rest) == ['\n'] + rest;
    } else {
      assert Line(l, rest)[1..] == Line(l[1..], rest);
      PiecesLine(l[1..], rest);
      assert Line(l, rest) == [l[0]] + Line(l[1..], rest);
    }
  }

  /** A line that begins with anything but white space or a bracket is no header. */
  lemma PlainLine(l: string, rest: string)
    requires l != "" && !Space(l[0]) && l[0] != '['
    ensures !Header(Line(l, rest))
  {
    assert Line(l, rest)[0] == l[0];
  }

  lemma {:induction false} BeforeNone(s: string, c: char)
    requires c !in s
    ensures Before(s, c) == s
  {
    if s != "" {
      BeforeNone(s[1..], c);
    }
  }

  lemma {:induction false} BeforeFirst(k: string, c: char, v: string)
    requires c !in k
    ensures Before(k + [c] + v, c) == k
  {
    if k == "" {
      assert (k + [c] + v)[0] == c;
    } else {
      assert (k + [c] + v)[1..] == k[1..] + [c] + v;
      BeforeFirst(k[1..], c, v);
    }
  }

  predicate Compact(s: string) {
    s != "" && !Space(s[0]) && !Space(s[|s| - 1])
  }

  lemma StripCompact(s: string)
    requires Compact(s)
    ensures Strip(s) == s && Strip(s + " ") == s && Strip(" " + s) == s
  {
    TrimRightSpace(s, ' ');
    assert TrimLeft(s + " ") == s + " ";
    assert (" " + s)[1..] == s;
    assert TrimLeft(" " + s) == s;
  }

  lemma ReadAround(a: string, b: string)
    requires '=' !in a && '#' !in a + ['='] + b && Strip(a + ['='] + b) == a + ['='] + b
    ensures FieldOf(a + ['='] + b) == [Field(Lower(Strip(a)), Strip(b))]
  {
    var line := a + ['='] + b;
    BeforeNone(line, '#');
    BeforeFirst(a, '=', b);
    hide Strip, Lower, Before;
    assert line[|a|] == '=';
    assert line[|a| + 1..] == b;
  }

  /** A line written as `key = value` is read back. */
  lemma ReadAssignment(k: string, v: string)
    requires Compact(k) && Compact(v) && '#' !in k && '#' !in v && '=' !in k
    ensures FieldOf(k + " = " + v) == [Field(Lower(k), v)]
  {
    var line := k + " = " + v;
    assert line[0] == k[0] && line[|line| - 1] == v[|v| - 1];
    StripCompact(line);
    StripCompact(k);
    StripCompact(v);
    hide Strip, Lower, Compact, FieldOf;
    assert line == (k + " ") + ['='] + (" " + v);
    assert '#' !in line;
    ReadAround(k + " ", " " + v);
  }

  lemma ReadNothing(l: string)
    requires '=' !in Before(l, '#')
    ensures FieldOf(l) == []
  {
    StripAmong(Before(l, '#'), '=');
  }

  lemma {:induction false} StripAmong(s: string, c: char)
    requires c !in s
    ensures c !in Strip(s)
  {
    TrimLeftAmong(s, c);
    TrimRightAmong(TrimLeft(s), c);
  }

  lemma {:induction false} TrimLeftAmong(s: string, c: char)
    requires c !in s
    ensures c !in TrimLeft(s)
  {
    if s != "" && Space(s[0]) {
      TrimLeftAmong(s[1..], c);
    }
  }

  lemma {:induction false} TrimRightAmong(s: string, c: char)
    requires c !in s
    ensures c !in TrimRight(s)
  {
    if s != "" && Space(s[|s| - 1]) {
      TrimRightAmong(s[..|s| - 1], c);
    }
  }

  predicate Plain(s: string) {
    forall i | 0 <= i < |s| :: !Space(s[i]) && s[i] != '#'
  }

  lemma KeyPlain(key: Key)
    requires ValidKey(key)
    ensures Plain(key) && Compact(key)
  {
    forall i | 0 <= i < |key|
      ensures !Space(key[i]) && key[i] != '#'
    {
      assert i < 43 ==> Base64(key[i]);
    }
  }

  lemma Lowered()
    ensures Lower("PublicKey") == "publickey" && Lower("AllowedIPs") == "allowedips"
  {
  }

  lemma OneLineCat(a: string, b: string)
    requires OneLine(a) && Plain(b)
    ensures OneLine(a + b)
  {
  }

  lemma KeyWord()
    ensures Compact("PublicKey") && '#' !in "PublicKey" && '=' !in "PublicKey" && OneLine("PublicKey = ")
  {
  }

  lemma KeyLine(key: Key)
    requires ValidKey(key)
    ensures OneLine("PublicKey = " + key) && FieldOf("PublicKey = " + key) == [Field("publickey", key)]
  {
    KeyPlain(key);
    Lowered();
    KeyWord();
    OneLineCat("PublicKey = ", key);
    assert '#' !in key;
    hide FieldOf, Lower, ValidKey, Compact, OneLine, Plain;
    assert "PublicKey" + " = " + key == "PublicKey = " + key;
    ReadAssignment("PublicKey", key);
  }

  lemma AddressWord()
    ensures Compact("AllowedIPs") && '#' !in "AllowedIPs" && '=' !in "AllowedIPs" && OneLine("AllowedIPs = ")
  {
  }

  lemma AddressLine(text: string)
    requires Plain(text) && Compact(text)
    ensures OneLine("AllowedIPs = " + text) && FieldOf("AllowedIPs = " + text) == [Field("allowedips", text)]
  {
    Lowered();
    AddressWord();
    OneLineCat("AllowedIPs = ", text);
    assert '#' !in text;
    hide FieldOf, Lower, Compact, OneLine, Plain;
    assert "AllowedIPs" + " = " + text == "AllowedIPs = " + text;
    ReadAssignment("AllowedIPs", text);
  }

  lemma NameLine(name: string)
    requires ValidName(name)
    ensures OneLine("# KDX InfraBox " + name) && FieldOf("# KDX InfraBox " + name) == []
  {
    assert OneLine("# KDX InfraBox ") && Plain(name);
    ReadNothing("# KDX InfraBox " + name);
  }

  lemma TitleLine()
    ensures OneLine(PEER) && FieldOf(PEER) == []
  {
    BeforeNone(PEER, '#');
    ReadNothing(PEER);
  }

  lemma ShownAddress(n: Notation, a: Address)
    requires Sound(n)
    ensures Plain(Cidr(n, a)) && Compact(Cidr(n, a)) && ',' !in Cidr(n, a)
  {
    assert Digits(n.show(a));
  }

  /** The appended block reads as one peer with the allocated address. */
  lemma EntryFields(n: Notation, name: string, key: Key, a: Address)
    requires Sound(n) && ValidName(name) && ValidKey(key)
    ensures Fields(Entry(n, name, key, a)) == [Field("publickey", key), Field("allowedips", Cidr(n, a))]
  {
    ShownAddress(n, a);
    var l1, l2, l3 := "# KDX InfraBox " + name, "PublicKey = " + key, "AllowedIPs = " + Cidr(n, a);
    TitleLine();
    NameLine(name);
    KeyLine(key);
    AddressLine(Cidr(n, a));
    EmptyNoFields();
    hide Fields, FieldOf, Line, OneLine, Plain, ValidName, ValidKey;
    FieldsLine(l3, "");
    FieldsLine(l2, Line(l3, ""));
    FieldsLine(l1, Line(l2, Line(l3, "")));
    FieldsLine(PEER, Line(l1, Line(l2, Line(l3, ""))));
  }

  predicate PlainStart(l: string) {
    l != "" && !Space(l[0]) && l[0] != '['
  }

  lemma PiecesFour(l0: string, l1: string, l2: string, l3: string)
    requires OneLine(l0) && OneLine(l1) && OneLine(l2) && OneLine(l3)
    requires PlainStart(l1) && PlainStart(l2) && PlainStart(l3)
    ensures Pieces(Line(l0, Line(l1, Line(l2, Line(l3, ""))))) == [Line(l0, Line(l1, Line(l2, Line(l3, ""))))]
  {
    HeaderBlank("");
    PiecesBlank("");
    hide Pieces, Header, Line, OneLine;
    PiecesLine(l3, "");
    PlainLine(l3, "");
    PiecesLine(l2, Line(l3, ""));
    PlainLine(l2, Line(l3, ""));
    PiecesLine(l1, Line(l2, Line(l3, "")));
    PlainLine(l1, Line(l2, Line(l3, "")));
    PiecesLine(l0, Line(l1, Line(l2, Line(l3, ""))));
  }

  lemma PlainStarts(name: string, key: Key, text: string)
    ensures PlainStart("# KDX InfraBox " + name) && PlainStart("PublicKey = " + key) && PlainStart("AllowedIPs = " + text)
  {
  }

  lemma EntryPieces(n: Notation, name: string, key: Key, a: Address)
    requires Sound(n) && ValidName(name) && ValidKey(key)
    ensures Pieces(Entry(n, name, key, a)) == [Entry(n, name, key, a)]
  {
    ShownAddress(n, a);
    var l1, l2, l3 := "# KDX InfraBox " + name, "PublicKey = " + key, "AllowedIPs = " + Cidr(n, a);
    KeyLine(key);
    NameLine(name);
    AddressLine(Cidr(n, a));
    TitleLine();
    PlainStarts(name, key, Cidr(n, a));
    hide Pieces, Line, FieldOf, OneLine, Plain, Compact, ValidName, ValidKey, PlainStart, Cidr;
    PiecesFour(PEER, l1, l2, l3);
  }

  lemma EntryHeader(n: Notation, name: string, key: Key, a: Address)
    ensures Header(Entry(n, name, key, a)) && PEER <= TrimLeft(Entry(n, name, key, a))
  {
    var rest := Line("# KDX InfraBox " + name, Line("PublicKey = " + key, Line("AllowedIPs = " + Cidr(n, a), "")));
    var t := Line(PEER, rest);
    assert TrimLeft(t) == t;
    assert t[|PEER|..] == "\n" + rest;
  }

  /** Adding keeps every section as it was and appends one. */
  lemma AddedSections(n: Notation, before: string, name: string, key: Key, a: Address)
    requires Sound(n) && ValidName(name) && ValidKey(key)
    ensures Sections(Added(n, before, name, key, a)) == Sections(before) + [TrimRight(Entry(n, name, key, a))]
  {
    var x := TrimRight(before);
    var entry := Entry(n, name, key, a);
    var w := TrimRightSplit(before);
    hide Sections, Header, Entry, Pieces, Fields, IsPeer, ValidName, ValidKey, Sound;
    EntryHeader(n, name, key, a);
    EntryPieces(n, name, key, a);
    EntryTrimmed(n, name, key, a);
    TailSections(x, w);
    TailSections(x, "\n\n");
    AppendSections(x + "\n\n", entry);
    OnePiece(entry);
    TrimmedOne(entry);
  }

  lemma EntryTrimmed(n: Notation, name: string, key: Key, a: Address)
    ensures TrimRight(Entry(n, name, key, a)) != ""
  {
    SectionFields(Entry(n, name, key, a));
    EmptyNoPeer();
    hide Fields;
  }

  lemma TrimmedOne(s: string)
    requires TrimRight(s) != ""
    ensures Trimmed([s]) == [TrimRight(s)]
  {
    assert [s][1..] == [];
  }

  lemma SelectPair(f: Field, g: Field, key: string)
    ensures Select([f, g], key)
         == (if f.key == key then [f.value] else []) + (if g.key == key then [g.value] else [])
  {
    assert [f, g][1..] == [g] && [g][1..] == [];
    assert Select([g], key) == if g.key == key then [g.value] else [];
  }

  lemma {:induction false} SplitNone(s: string, c: char)
    requires c !in s
    ensures Split(s, c) == [s]
  {
    if s != "" {
      SplitNone(s[1..], c);
      assert [s[0]] + s[1..] == s;
    }
  }

  lemma EntryNetworks(n: Notation, a: Address)
    requires Sound(n)
    ensures ReadNetworks(n, Items([Cidr(n, a)])) == Some([Host(a)])
  {
    var text := Cidr(n, a);
    ShownAddress(n, a);
    SplitNone(text, ',');
    StripCompact(text);
    assert [text][1..] == [];
    assert Items([text]) == [text];
    assert Digits(n.show(a)) && n.network(text) == Some(Host(a));
    assert ReadNetworks(n, [text][1..]) == Some([]);
    assert [Host(a)] + [] == [Host(a)];
  }

  /** After an addition the configuration names the same peers and the new one. */
  lemma PeersAdded(n: Notation, before: string, name: string, key: Key, a: Address)
    requires Sound(n) && ValidName(name) && ValidKey(key)
    requires Peers(n, before).Some? && key !in Peers(n, before).value
    ensures Peers(n, Added(n, before, name, key, a)) == Some(Peers(n, before).value[key := [Host(a)]])
  {
    var s := TrimRight(Entry(n, name, key, a));
    var found := Peers(n, before).value;
    PeersOfSections(n, before);
    PeersOfSections(n, Added(n, before, name, key, a));
    AddedSections(n, before, name, key, a);
    CollectCat(n, Sections(before), [s], map[]);
    assert Collect(n, [s], found) == Some(found[key := [Host(a)]]) by {
      SectionFields(Entry(n, name, key, a));
      EntryFields(n, name, key, a);
      EntryHeader(n, name, key, a);
      EntryNetworks(n, a);
      EntrySection(n, s, found, key, Cidr(n, a));
    }
  }

  lemma EntrySection(n: Notation, s: string, found: map<Key, seq<Network>>, key: Key, text: string)
    requires IsPeer(s) && Fields(s) == [Field("publickey", key), Field("allowedips", text)]
    requires key !in found && ValidKey(key) && ReadNetworks(n, Items([text])).Some?
    ensures Collect(n, [s], found) == Some(found[key := ReadNetworks(n, Items([text])).value])
  {
    hide IsPeer, Fields, ValidKey, ReadNetworks, Items;
    SelectPair(Field("publickey", key), Field("allowedips", text), "publickey");
    SelectPair(Field("publickey", key), Field("allowedips", text), "allowedips");
    assert "publickey"[0] != "allowedips"[0];
    assert Values(s, "publickey") == [key];
    assert Values(s, "allowedips") == [text];
    assert [s][1..] == [];
  }

  /** Removing what was just added gives back the peers there were, and every section there was if none of them
      mentions the key. */
  lemma RemoveUndoesAdd(n: Notation, before: string, name: string, key: Key, a: Address)
    requires Sound(n) && ValidName(name) && ValidKey(key)
    requires Peers(n, before).Some? && key !in Peers(n, before).value
    ensures Peers(n, Removed(Added(n, before, name, key, a), key)) == Peers(n, before)
    ensures Without(Sections(before), key) == Sections(before)
        ==> Sections(Removed(Added(n, before, name, key, a), key)) == Sections(before)
  {
    hide Added, Removed, Peers, Sections, Entry, ValidName, ValidKey, Sound;
    var after := Added(n, before, name, key, a);
    var found := Peers(n, before).value;
    PeersAdded(n, before, name, key, a);
    PeersRemoved(n, after, key);
    assert found[key := [Host(a)]] - {key} == found;
    RemovedSections(after, key);
    AddedSections(n, before, name, key, a);
    assert Without([TrimRight(Entry(n, name, key, a))], key) == [] by {
      SectionFields(Entry(n, name, key, a));
      EntryFields(n, name, key, a);
      OnlyKey(TrimRight(Entry(n, name, key, a)), key, Cidr(n, a));
    }
    WithoutCat(Sections(before), [TrimRight(Entry(n, name, key, a))], key);
  }

  lemma OnlyKey(s: string, key: Key, text: string)
    requires Fields(s) == [Field("publickey", key), Field("allowedips", text)]
    ensures Without([s], key) == []
  {
    hide Fields;
    SelectPair(Field("publickey", key), Field("allowedips", text), "publickey");
    assert "publickey"[0] != "allowedips"[0];
    assert Values(s, "publickey") == [key];
    assert [s][1..] == [];
  }

  lemma {:induction false} WithoutCat(a: seq<string>, b: seq<string>, key: Key)
    ensures Without(a + b, key) == Without(a, key) + Without(b, key)
    decreases |a|
  {
    hide Values;
    if a == [] {
      assert a + b == b;
    } else {
      assert (a + b)[1..] == a[1..] + b;
      WithoutCat(a[1..], b, key);
    }
  }
}
