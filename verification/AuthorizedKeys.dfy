/** The text of authorized_keys: installing the key line of a lease and taking it out again
    (scripts/kdx-wg-enroll.py). */
module AuthorizedKeys {
  import opened Prelude
  import opened ConfigText
  import opened ConfigSections
  import opened PeerConfig
  import opened PeerEdits
  import opened PeerServerSpec

  type LeaseId = string

  // ---------------------------------------------------------------- keys

  /** The words of a text, white space apart. */
  function Words(s: string): seq<string> {
    if s == "" then []
    else if Space(s[0]) then Words(s[1..])
    else [Word(s)] + Words(s[|Word(s)|..])
  }

  function Word(s: string): (w: string)
    ensures w <= s && (s != "" && !Space(s[0]) ==> w != "")
  {
    if s == "" || Space(s[0]) then "" else [s[0]] + Word(s[1..])
  }

  const KIND := "ssh-ed25519"
  const COMMAND := "/usr/local/sbin/kdx-wg-enroll.py"

  /** The base64 text of the 19 bytes every Ed25519 key begins with, as far as it does not depend on the rest. */
  const KEY_HEAD := "AAAAC3NzaC1lZDI1NTE5AAAAI"

  /** 51 bytes in base64: the head and 32 bytes that are not all zero. */
  predicate Ed25519(blob: string) {
    && |blob| == 68 && KEY_HEAD <= blob && 'A' <= blob[25] <= 'P'
    && (forall i | 0 <= i < 68 :: Base64(blob[i]))
    && exists i | 25 <= i < 68 :: blob[i] != 'A'
  }

  /** The key in a public key file: its kind, the key, and perhaps a comment. */
  function PublicKey(file: string): Option<string> {
    var words := Words(file);
    if |words| in {2, 3} && words[0] == KIND && Ed25519(words[1]) then Some(words[1]) else None
  }

  // ---------------------------------------------------------------- lines

  /** A line that ends here; a carriage return takes the line feed behind it along. */
  predicate Closes(text: string)
    requires text != ""
  {
    Break(text[0]) && !(text[0] == '\r' && |text| > 1 && text[1] == '\n')
  }

  /** A character in front of a text that was cut into lines. */
  function Grown(c: char, lines: seq<string>, closed: bool): seq<string> {
    if closed || lines == [] then [[c]] + lines else [[c] + lines[0]] + lines[1..]
  }

  /** The lines of a text with their ends. */
  function CutLines(text: string): (lines: seq<string>)
    ensures text != "" ==> lines != [] && lines[0] != "" && lines[0][0] == text[0]
  {
    if text == "" then []
    else
      Grown(text[0], CutLines(text[1..]), Closes(text))
  }

  predicate Ends(s: string, tail: string) {
    |tail| <= |s| && s[|s| - |tail|..] == tail
  }

  const MARK := "kdx-enroll-"

  /** The line ends, white space aside, with the mark of the lease. */
  predicate Marked(line: string, id: LeaseId) {
    Ends(TrimRight(line), MARK + id)
  }

  function Unmarked(lines: seq<string>, id: LeaseId): seq<string> {
    if lines == [] then []
    else (if Marked(lines[0], id) then [] else [lines[0]]) + Unmarked(lines[1..], id)
  }

  /** What a revocation leaves of the text. */
  function WithoutLease(text: string, id: LeaseId): string {
    Concat(Unmarked(CutLines(text), id))
  }

  function TrimFeeds(text: string): string {
    if text != "" && text[|text| - 1] == '\n' then TrimFeeds(text[..|text| - 1]) else text
  }

  /** An expiry as digits and a letter. */
  type Stamp = s: string | forall i | 0 <= i < |s| :: IsDigit(s[i]) || s[i] == 'Z'

  /** The line of a lease: what the key may do and until when, the key, and the mark of the lease. */
  function LeaseLine(id: LeaseId, stamp: Stamp, blob: string): string {
    "restrict,expiry-time=\"" + stamp + "\",command=\"" + COMMAND + " serve --lease " + id + "\" " + KIND + " " + blob + " "
    + (MARK + id)
  }

  /** The text with one more line. */
  function Installed(text: string, line: string): string {
    TrimFeeds(text) + "\n" + (line + "\n")
  }

  /** The key occurs somewhere in the text. */
  predicate Within(sub: string, text: string) {
    exists i | 0 <= i <= |text| :: sub <= text[i..]
  }

  /** The line of a lease lets its key do nothing but run this lease's command, and only up to its expiry. */
  lemma LeaseLineRestricts(id: LeaseId, stamp: Stamp, blob: string)
    ensures "restrict,expiry-time=\"" + stamp + "\",command=\"" + COMMAND + " serve --lease " + id + "\" "
         <= LeaseLine(id, stamp, blob)
  {
  }

  /** A key that was installed occurs in the text, so that it is not installed again. */
  lemma InstalledWithin(text: string, id: LeaseId, stamp: Stamp, blob: string)
    ensures Within(blob, Installed(text, LeaseLine(id, stamp, blob)))
  {
    var head := "restrict,expiry-time=\"" + stamp + "\",command=\"" + COMMAND + " serve --lease " + id + "\" " + KIND + " ";
    var front, back := TrimFeeds(text) + "\n" + head, " " + (MARK + id) + "\n";
    var whole := Installed(text, LeaseLine(id, stamp, blob));
    assert whole == front + (blob + back) by {
      assert LeaseLine(id, stamp, blob) == head + blob + " " + (MARK + id);
      hide *;
      assert head + blob + " " + (MARK + id) + "\n" == head + (blob + (" " + (MARK + id) + "\n"));
    }
    hide Installed, LeaseLine, TrimFeeds;
    assert whole[|front|..] == blob + back;
    assert blob <= whole[|front|..];
  }

  // ---------------------------------------------------------------- cutting

  lemma CutFirst(c: char, t: string)
    ensures CutLines([c] + t) == Grown(c, CutLines(t), Closes([c] + t))
  {
    hide Closes;
  }

  lemma GrownConcat(c: char, lines: seq<string>, closed: bool)
    ensures Concat(Grown(c, lines, closed)) == [c] + Concat(lines)
  {
    assert ([[c]] + lines)[1..] == lines;
    if lines != [] {
      assert ([[c] + lines[0]] + lines[1..])[1..] == lines[1..];
    }
  }

  lemma {:induction false} CutConcat(text: string)
    ensures Concat(CutLines(text)) == text
  {
    hide Closes;
    if text != "" {
      CutConcat(text[1..]);
      GrownConcat(text[0], CutLines(text[1..]), Closes(text));
    }
  }

  lemma GrownCat(c: char, a: seq<string>, b: seq<string>, closed: bool)
    requires a != []
    ensures Grown(c, a + b, closed) == Grown(c, a, closed) + b
  {
    if !closed {
      assert (a + b)[1..] == a[1..] + b;
    }
  }

  /** Cutting goes on afresh after a line feed. */
  lemma {:induction false} CutCat(x: string, y: string)
    requires x != "" && x[|x| - 1] == '\n'
    ensures CutLines(x + y) == CutLines(x) + CutLines(y)
  {
    var c, u := x[0], x[1..];
    assert x == [c] + u && x + y == [c] + (u + y);
    assert Closes(x + y) == Closes(x) && (u == "" ==> Closes(x));
    hide Closes, CutLines;
    CutFirst(c, u + y);
    CutFirst(c, u);
    if u == "" {
      NoText();
      assert u + y == y;
    } else {
      CutCat(u, y);
      CutSome(u);
      GrownCat(c, CutLines(u), CutLines(y), Closes(x));
    }
  }

  lemma NoText()
    ensures CutLines("") == []
  {
  }

  lemma CutSome(t: string)
    requires t != ""
    ensures CutLines(t) != []
  {
  }

  lemma {:induction false} CutLine(l: string)
    requires OneLine(l)
    ensures CutLines(l + "\n") == [l + "\n"]
  {
    if l == "" {
      assert l + "\n" == "\n" && "\n"[1..] == "";
    } else {
      CutLine(l[1..]);
      assert l + "\n" == [l[0]] + (l[1..] + "\n");
      assert !Closes(l + "\n");
      hide Closes, CutLines;
      CutFirst(l[0], l[1..] + "\n");
    }
  }

  /** The lines of a text with one more line feed: it goes to the last line unless that line is closed already. */
  function Fed(lines: seq<string>, open: bool): seq<string>
    requires lines != []
  {
    var last := |lines| - 1;
    if open then lines[..last] + [lines[last] + "\n"] else lines + ["\n"]
  }

  lemma FedApart(c: char, lines: seq<string>, open: bool)
    requires lines != []
    ensures [[c]] + Fed(lines, open) == Fed([[c]] + lines, open)
  {
    assert ([[c]] + lines)[..|lines|] == [[c]] + lines[..|lines| - 1];
  }

  lemma FedOn(c: char, lines: seq<string>, open: bool)
    requires lines != []
    ensures [[c] + Fed(lines, open)[0]] + Fed(lines, open)[1..] == Fed([[c] + lines[0]] + lines[1..], open)
  {
    if |lines| == 1 {
      assert [c] + lines[0] + "\n" == [c] + (lines[0] + "\n");
    }
  }

  lemma FedSome(lines: seq<string>, open: bool)
    requires lines != []
    ensures Fed(lines, open) != []
  {
  }

  predicate Open(t: string)
    requires t != ""
  {
    !Break(t[|t| - 1]) || t[|t| - 1] == '\r'
  }

  lemma {:induction false} CutFeed(t: string)
    requires t != ""
    ensures CutLines(t + "\n") == Fed(CutLines(t), Open(t))
  {
    hide Break;
    if |t| == 1 {
      CutFeedOne(t);
    } else {
      assert t + "\n" == [t[0]] + (t[1..] + "\n") && t == [t[0]] + t[1..];
      assert Closes(t + "\n") == Closes(t) && Open(t) == Open(t[1..]);
      hide Closes, Open, Fed, CutLines;
      CutFeed(t[1..]);
      CutFirst(t[0], t[1..] + "\n");
      CutFirst(t[0], t[1..]);
      CutSome(t[1..]);
      FedSome(CutLines(t[1..]), Open(t));
      FedApart(t[0], CutLines(t[1..]), Open(t));
      FedOn(t[0], CutLines(t[1..]), Open(t));
    }
  }

  lemma CutFeedOne(t: string)
    requires |t| == 1
    ensures CutLines(t + "\n") == Fed(CutLines(t), Open(t))
  {
    assert t[1..] == "" && t == [t[0]];
    assert (t + "\n")[1..] == "\n" && "\n"[1..] == "";
    assert CutLines("\n") == ["\n"];
  }

  // ---------------------------------------------------------------- marks

  /** The lease has a line in the text. */
  predicate HasLine(text: string, id: LeaseId) {
    exists line :: line in CutLines(text) && Marked(line, id)
  }

  lemma MarkedFeed(line: string, id: LeaseId)
    ensures Marked(line + "\n", id) == Marked(line, id) && !Marked("\n", id) && !Marked("", id)
  {
    TrimRightSpace(line, '\n');
    TrimRightSpace("", '\n');
    assert "" + "\n" == "\n";
  }

  lemma OneMark(line: string, id: LeaseId, other: LeaseId)
    requires ValidId(id) && ValidId(other) && Marked(line, id) && Marked(line, other)
    ensures id == other
  {
    hide TrimRight;
    var s := TrimRight(line);
    assert id == s[|s| - 36..] by {
      assert (MARK + id)[|MARK|..] == id;
    }
    assert other == s[|s| - 36..] by {
      assert (MARK + other)[|MARK|..] == other;
    }
  }

  lemma NoLines(id: LeaseId)
    ensures !HasLine("", id) && !HasLine("\n", id)
  {
    MarkedFeed("", id);
    hide Marked;
    assert "\n"[1..] == "" && CutLines("") == [];
    assert CutLines("\n") == ["\n"];
  }

  lemma FedMarks(lines: seq<string>, open: bool, id: LeaseId)
    requires lines != []
    ensures (exists line :: line in Fed(lines, open) && Marked(line, id))
       <==> exists line :: line in lines && Marked(line, id)
  {
    var last := |lines| - 1;
    MarkedFeed(lines[last], id);
    hide Marked;
    assert lines == lines[..last] + [lines[last]];
    assert Fed(lines, open)[|Fed(lines, open)| - 1] in Fed(lines, open);
  }

  lemma HasLineFeed(t: string, id: LeaseId)
    ensures HasLine(t + "\n", id) <==> HasLine(t, id)
  {
    if t == "" {
      assert t + "\n" == "\n";
      NoLines(id);
    } else {
      CutFeed(t);
      FedMarks(CutLines(t), Open(t), id);
      hide CutLines, Marked, Open, Fed;
    }
  }

  lemma {:induction false} HasLineTrimmed(t: string, id: LeaseId)
    ensures HasLine(TrimFeeds(t), id) <==> HasLine(t, id)
  {
    hide HasLine;
    if t != "" && t[|t| - 1] == '\n' {
      var u := t[..|t| - 1];
      HasLineTrimmed(u, id);
      HasLineFeed(u, id);
      assert t == u + "\n";
    }
  }

  lemma InstalledLines(t: string, line: string)
    requires OneLine(line)
    ensures CutLines(Installed(t, line)) == CutLines(TrimFeeds(t) + "\n") + [line + "\n"]
  {
    CutCat(TrimFeeds(t) + "\n", line + "\n");
    CutLine(line);
  }

  /** Installing a line adds its mark to those the text had. */
  lemma HasLineInstalled(t: string, line: string, id: LeaseId)
    requires OneLine(line)
    ensures HasLine(Installed(t, line), id) <==> HasLine(t, id) || Marked(line, id)
  {
    InstalledLines(t, line);
    HasLineFeed(TrimFeeds(t), id);
    HasLineTrimmed(t, id);
    MarkedFeed(line, id);
    hide CutLines, Marked;
    assert line + "\n" in CutLines(Installed(t, line));
  }

  lemma Joined(a: string, b: string)
    requires OneLine(a) && OneLine(b)
    ensures OneLine(a + b)
  {
  }

  lemma Literals()
    ensures OneLine("restrict,expiry-time=\"") && OneLine("\",command=\"") && OneLine(" serve --lease ")
    ensures OneLine("\" ") && OneLine(KIND) && OneLine(" ") && OneLine(MARK)
  {
  }

  lemma LeaseLineWhole(id: LeaseId, stamp: Stamp, blob: string)
    requires ValidId(id) && Ed25519(blob)
    ensures OneLine(LeaseLine(id, stamp, blob))
  {
    assert OneLine(id) && OneLine(blob) && OneLine(stamp);
    Literals();
    assert OneLine(COMMAND);
    hide OneLine, Ed25519, ValidId;
    var head := "restrict,expiry-time=\"" + stamp + "\",command=\"";
    Joined("restrict,expiry-time=\"", stamp);
    Joined("restrict,expiry-time=\"" + stamp, "\",command=\"");
    Joined(head, COMMAND);
    Joined(head + COMMAND, " serve --lease ");
    Joined(head + COMMAND + " serve --lease ", id);
    var body := head + COMMAND + " serve --lease " + id;
    Joined(body, "\" ");
    Joined(body + "\" ", KIND);
    Joined(body + "\" " + KIND, " ");
    Joined(body + "\" " + KIND + " ", blob);
    Joined(body + "\" " + KIND + " " + blob, " ");
    Joined(MARK, id);
    Joined(body + "\" " + KIND + " " + blob + " ", MARK + id);
  }

  lemma MarkAtEnd(head: string, id: LeaseId)
    requires ValidId(id)
    ensures Marked(head + (MARK + id), id)
  {
    var line := head + (MARK + id);
    assert line[|line| - 1] == id[35] && !Space(id[35]);
    assert line[|line| - |MARK + id|..] == MARK + id;
  }

  /** The line of a lease is one line, and it carries the mark of this lease and of no other. */
  lemma LeaseLineMark(id: LeaseId, stamp: Stamp, blob: string, other: LeaseId)
    requires ValidId(id) && ValidId(other) && Ed25519(blob)
    ensures OneLine(LeaseLine(id, stamp, blob))
    ensures Marked(LeaseLine(id, stamp, blob), other) <==> other == id
  {
    LeaseLineWhole(id, stamp, blob);
    hide OneLine, Ed25519, ValidId, Marked;
    var head := "restrict,expiry-time=\"" + stamp + "\",command=\"" + COMMAND + " serve --lease " + id + "\" " + KIND + " "
                + blob + " ";
    MarkAtEnd(head, id);
    if Marked(LeaseLine(id, stamp, blob), other) {
      OneMark(LeaseLine(id, stamp, blob), id, other);
    }
  }

  /** A new line is taken out again without a trace but for line feeds at the end. */
  lemma RemovedAgain(t: string, id: LeaseId, line: string)
    requires OneLine(line) && Marked(line, id) && !HasLine(t, id)
    ensures WithoutLease(Installed(t, line), id) == TrimFeeds(t) + "\n"
  {
    var u := TrimFeeds(t) + "\n";
    InstalledLines(t, line);
    MarkedFeed(line, id);
    HasLineTrimmed(t, id);
    HasLineFeed(TrimFeeds(t), id);
    hide CutLines, Marked, OneLine, Installed, TrimFeeds;
    UnmarkedSnoc(CutLines(u), line + "\n", id);
    assert !HasLine(u, id);
    UnmarkedAll(CutLines(u), id);
    assert CutLines(u) + [] == CutLines(u);
    CutConcat(u);
  }

  lemma {:induction false} UnmarkedSnoc(lines: seq<string>, line: string, id: LeaseId)
    ensures Unmarked(lines + [line], id) == Unmarked(lines, id) + if Marked(line, id) then [] else [line]
  {
    hide Marked;
    if lines == [] {
      assert lines + [line] == [line];
    } else {
      assert (lines + [line])[1..] == lines[1..] + [line];
      UnmarkedSnoc(lines[1..], line, id);
    }
  }

  lemma {:induction false} UnmarkedAll(lines: seq<string>, id: LeaseId)
    requires forall line | line in lines :: !Marked(line, id)
    ensures Unmarked(lines, id) == lines
  {
    hide Marked;
    if lines != [] {
      UnmarkedAll(lines[1..], id);
      assert lines == [lines[0]] + lines[1..];
    }
  }

  // ---------------------------------------------------------------- lines put together again

  predicate Whole(line: string) {
    line != "" && CutLines(line) == [line]
  }

  /** Lines in a row, each closed but perhaps the last. */
  predicate Row(lines: seq<string>) {
    && (forall i | 0 <= i < |lines| :: Whole(lines[i]))
    && (forall i | 0 <= i < |lines| - 1 :: lines[i] != "" && Break(lines[i][|lines[i]| - 1]))
  }

  lemma WholeOne(c: char)
    ensures Whole([c])
  {
    assert [c][1..] == "" && CutLines("") == [];
  }

  lemma WholeCons(c: char, p: string)
    requires Whole(p) && !Closes([c] + p)
    ensures Whole([c] + p)
  {
    hide Closes;
    assert ([c] + p)[1..] == p;
  }

  lemma RowApart(c: char, rest: seq<string>)
    requires Row(rest) && (Break(c) || rest == [])
    ensures Row([[c]] + rest)
  {
    WholeOne(c);
    hide Whole, Break;
  }

  lemma RowOn(c: char, rest: seq<string>)
    requires Row(rest) && rest != [] && rest[0] != "" && !Closes([c] + rest[0])
    ensures Row([[c] + rest[0]] + rest[1..])
  {
    WholeCons(c, rest[0]);
    hide Whole, Break, Closes;
  }

  lemma {:induction false} CutRow(t: string)
    ensures Row(CutLines(t))
  {
    if t != "" {
      var c, u := t[0], t[1..];
      assert t == [c] + u;
      CutRow(u);
      CutFirst(c, u);
      var rest := CutLines(u);
      if rest != [] && !Closes(t) {
        assert rest[0] != "" && u != "" && rest[0][0] == u[0];
        assert !Closes([c] + rest[0]);
        RowOn(c, rest);
      } else {
        hide CutLines, Row;
        RowApart(c, rest);
      }
    }
  }

  /** Put in front of a text, a closed line stays a line; at most a line feed of the text joins it. */
  lemma {:induction false} LineCat(p: string, t: string)
    requires Whole(p) && Break(p[|p| - 1])
    ensures CutLines(p + t) == [p] + CutLines(t)
         || (CutLines(t) != [] && CutLines(t)[0] == "\n" && CutLines(p + t) == [p + "\n"] + CutLines(t)[1..])
  {
    var c, u := p[0], p[1..];
    if |p| == 1 {
      LineCatOne(p, t);
    } else {
      assert p == [c] + u && p + t == [c] + (u + t) && p + "\n" == [c] + (u + "\n");
      CutSome(u);
      WholeTail(c, u);
      assert Closes(p + t) == Closes(p);
      hide Closes, CutLines;
      LineCat(u, t);
      CutFirst(c, u + t);
    }
  }

  lemma WholeTail(c: char, u: string)
    requires Whole([c] + u) && u != ""
    ensures Whole(u) && !Closes([c] + u)
  {
    CutFirst(c, u);
    CutSome(u);
    hide Closes, CutLines;
    assert CutLines(u) == CutLines(u)[..1] + CutLines(u)[1..];
    assert [c] + CutLines(u)[0] == [c] + u ==> ([c] + CutLines(u)[0])[1..] == u;
  }

  lemma LineCatOne(p: string, t: string)
    requires |p| == 1 && Break(p[0])
    ensures CutLines(p + t) == [p] + CutLines(t)
         || (CutLines(t) != [] && CutLines(t)[0] == "\n" && CutLines(p + t) == [p + "\n"] + CutLines(t)[1..])
  {
    assert p == [p[0]];
    CutFirst(p[0], t);
    if t != "" && t[0] == '\n' {
      assert t == ['\n'] + t[1..] && Closes(t);
      CutFirst('\n', t[1..]);
    }
    hide CutLines;
  }

  lemma HasLineCat(p: string, t: string, id: LeaseId)
    requires Whole(p) && (Break(p[|p| - 1]) || t == "")
    ensures HasLine(p + t, id) <==> Marked(p, id) || HasLine(t, id)
  {
    MarkedFeed(p, id);
    if Break(p[|p| - 1]) {
      LineCat(p, t);
      hide CutLines, Marked;
      var lines := CutLines(t);
      if CutLines(p + t) != [p] + lines {
        assert lines == ["\n"] + lines[1..];
      }
    } else {
      assert p + t == p;
    }
  }

  lemma {:induction false} HasLineKept(lines: seq<string>, id: LeaseId, other: LeaseId)
    requires Row(lines) && ValidId(id) && ValidId(other)
    ensures HasLine(Concat(Unmarked(lines, id)), other)
       <==> other != id && exists line :: line in lines && Marked(line, other)
  {
    hide Marked, Whole, ValidId, HasLine;
    if lines == [] {
      NoLines(other);
    } else {
      var p, rest := lines[0], lines[1..];
      assert Row(rest);
      HasLineKept(rest, id, other);
      assert lines == [p] + rest;
      if Marked(p, id) {
        if other != id && Marked(p, other) {
          OneMark(p, id, other);
        }
        assert Unmarked(lines, id) == Unmarked(rest, id);
      } else {
        var t := Concat(Unmarked(rest, id));
        assert Concat(Unmarked(lines, id)) == p + t by {
          assert ([p] + Unmarked(rest, id))[1..] == Unmarked(rest, id);
        }
        assert lines[0] == p && Whole(p);
        WholeSome(p);
        assert Break(p[|p| - 1]) || t == "";
        HasLineCat(p, t, other);
      }
    }
  }

  lemma WholeSome(p: string)
    requires Whole(p)
    ensures p != ""
  {
  }

  /** A revocation takes every line of the lease and none of another. */
  lemma HasLineWithout(t: string, id: LeaseId, other: LeaseId)
    requires ValidId(id) && ValidId(other)
    ensures HasLine(WithoutLease(t, id), other) <==> other != id && HasLine(t, other)
  {
    CutRow(t);
    HasLineKept(CutLines(t), id, other);
  }

  /** Of the lines, exactly those without the mark are kept, each as often as it was there. */
  lemma {:induction false} UnmarkedExact(lines: seq<string>, id: LeaseId)
    ensures forall line :: multiset(Unmarked(lines, id))[line] == if Marked(line, id) then 0 else multiset(lines)[line]
  {
    hide Marked;
    if lines != [] {
      UnmarkedExact(lines[1..], id);
      assert lines == [lines[0]] + lines[1..];
      assert multiset(lines) == multiset{lines[0]} + multiset(lines[1..]);
    }
  }
}
