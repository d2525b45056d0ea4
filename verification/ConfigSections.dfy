/** What editing by blocks does to a configuration: every section other than the edited one keeps its text, up to
    white space at its end. */
module ConfigSections {
  import opened Prelude
  import opened ConfigText

  // ---------------------------------------------------------------- trimming

  lemma TrimRightSpace(x: string, c: char)
    requires Space(c)
    ensures TrimRight(x + [c]) == TrimRight(x)
  {
    assert (x + [c])[..|x|] == x;
  }

  lemma {:induction false} TrimRightBlank(s: string)
    ensures Blank(s) <==> TrimRight(s) == ""
  {
    if s != "" {
      TrimRightBlank(s[..|s| - 1]);
      if Space(s[|s| - 1]) && Blank(s[..|s| - 1]) {
        assert forall i | 0 <= i < |s| - 1 :: s[i] == s[..|s| - 1][i];
      }
    }
  }

  lemma {:induction false} TrimRightTail(x: string, w: string)
    requires Blank(w)
    ensures TrimRight(x + w) == TrimRight(x)
  {
    if w == "" {
      assert x + w == x;
    } else {
      var v := w[..|w| - 1];
      TrimRightTail(x, v);
      TrimRightSpace(x + v, w[|w| - 1]);
      assert x + w == x + v + [w[|w| - 1]];
    }
  }

  lemma {:induction false} TrimRightCons(c: char, x: string)
    ensures TrimRight([c] + x) == if TrimRight(x) == "" then TrimRight([c]) else [c] + TrimRight(x)
  {
    if x == "" {
      assert [c] + x == [c];
    } else if Space(x[|x| - 1]) {
      var v := x[..|x| - 1];
      TrimRightCons(c, v);
      assert [c] + x == [c] + v + [x[|x| - 1]];
      TrimRightSpace([c] + v, x[|x| - 1]);
    }
  }

  lemma {:induction false} TrimLeftCat(x: string, s: string)
    ensures TrimLeft(x + s) == if Blank(x) then TrimLeft(s) else TrimLeft(x) + s
  {
    if x == "" {
      assert x + s == s;
    } else {
      assert (x + s)[1..] == x[1..] + s;
      TrimLeftCat(x[1..], s);
      if Space(x[0]) && Blank(x[1..]) {
        assert forall i | 1 <= i < |x| :: x[i] == x[1..][i - 1];
        assert Blank(x);
      }
    }
  }

  lemma TrimLeftBlank(s: string)
    requires Blank(s)
    ensures TrimLeft(s) == ""
  {
    TrimLeftCat(s, "");
    assert s + "" == s;
  }

  lemma {:induction false} TrimLeftStart(s: string)
    requires !Blank(s)
    ensures TrimLeft(s) != "" && !Space(TrimLeft(s)[0]) && TrimLeft(s)[|TrimLeft(s)| - 1] == s[|s| - 1]
  {
    if Space(s[0]) {
      assert !Blank(s[1..]) by {
        var i :| 0 <= i < |s| && !Space(s[i]);
        assert s[1..][i - 1] == s[i];
      }
      TrimLeftStart(s[1..]);
    }
  }

  // ---------------------------------------------------------------- headers

  /** Nothing that stands after `x` can change what the header pattern sees in `x`. */
  predicate Apart(x: string, s: string) {
    s == "" || Blank(s) || s[0] == '\n' || (x != "" && x[|x| - 1] == '\n')
  }

  lemma {:induction false} EndsLineCat(z: string, s: string)
    requires Apart(z, s)
    ensures EndsLine(z + s) <==> EndsLine(z)
  {
    if z == "" {
      assert z + s == s;
      EndsLineBlank(s);
    } else {
      assert (z + s)[1..] == z[1..] + s;
      if z[0] != '\n' {
        EndsLineCat(z[1..], s);
      }
    }
  }

  lemma {:induction false} EndsLineBlank(s: string)
    requires s == "" || Blank(s) || s[0] == '\n'
    ensures EndsLine(s)
  {
    if s != "" && s[0] != '\n' {
      EndsLineBlank(s[1..]);
    }
  }

  predicate Token(token: string) {
    |token| > 0 && forall i | 0 <= i < |token| :: !Space(token[i])
  }

  lemma TitledBy(token: string, y: string, s: string)
    requires Token(token) && y != "" && Apart(y, s)
    ensures (token <= y + s && EndsLine((y + s)[|token|..])) <==> (token <= y && EndsLine(y[|token|..]))
  {
    if |token| <= |y| {
      assert (y + s)[..|token|] == y[..|token|];
      assert (y + s)[|token|..] == y[|token|..] + s;
      if token <= y {
        assert |token| == |y| ==> y[|y| - 1] == token[|token| - 1];
        EndsLineCat(y[|token|..], s);
      }
    } else if s != "" {
      assert (y + s)[|y|] == s[0] && (y + s)[|y| - 1] == y[|y| - 1];
      assert !Space(token[|y|]) && !Space(token[|y| - 1]);
    }
  }

  lemma TitledCat(y: string, s: string)
    requires y != "" && Apart(y, s)
    ensures Titled(y + s) <==> Titled(y)
  {
    TitledBy(INTERFACE, y, s);
    TitledBy(PEER, y, s);
  }

  lemma HeaderCat(x: string, s: string)
    requires Apart(x, s)
    ensures Header(x + s) <==> if Blank(x) then Header(s) else Header(x)
  {
    TrimLeftCat(x, s);
    if !Blank(x) {
      TrimLeftStart(x);
      TitledCat(TrimLeft(x), s);
    }
  }

  lemma HeaderBlank(s: string)
    requires Blank(s)
    ensures !Header(s)
  {
    TrimLeftBlank(s);
  }

  // ---------------------------------------------------------------- sections

  /** The pieces that hold more than white space, without the white space at their ends. */
  function Trimmed(ps: seq<string>): seq<string> {
    if ps == [] then []
    else (if TrimRight(ps[0]) == "" then [] else [TrimRight(ps[0])]) + Trimmed(ps[1..])
  }

  /** The sections of a configuration. */
  function Sections(t: string): seq<string> {
    Trimmed(Blocks(t))
  }

  /** `p` and `q + more` hold the same sections; the first piece is compared separately. */
  predicate Alike(p: seq<string>, q: seq<string>, more: seq<string>)
    requires |p| > 0 && |q| > 0
  {
    TrimRight(p[0]) == TrimRight(q[0]) && Trimmed(p[1..]) == Trimmed(q[1..]) + more
  }

  lemma AlikeTrimmed(p: seq<string>, q: seq<string>, more: seq<string>)
    requires |p| > 0 && |q| > 0 && Alike(p, q, more)
    ensures Trimmed(p) == Trimmed(q) + more
  {
  }

  lemma AlikeCons(c: char, p: seq<string>, q: seq<string>, more: seq<string>)
    requires |p| > 0 && |q| > 0 && Alike(p, q, more)
    ensures Alike([[c] + p[0]] + p[1..], [[c] + q[0]] + q[1..], more)
  {
    TrimRightCons(c, p[0]);
    TrimRightCons(c, q[0]);
    assert ([[c] + p[0]] + p[1..])[1..] == p[1..];
    assert ([[c] + q[0]] + q[1..])[1..] == q[1..];
  }

  lemma {:induction false} PiecesBlank(w: string)
    requires Blank(w)
    ensures Pieces(w) == [w]
  {
    if w != "" {
      PiecesBlank(w[1..]);
      HeaderBlank(w[1..]);
      assert w == [w[0]] + w[1..];
    }
  }

  lemma {:induction false} PiecesTail(x: string, w: string)
    requires Blank(w)
    ensures Alike(Pieces(x + w), Pieces(x), [])
  {
    if x == "" {
      assert x + w == w;
      PiecesBlank(w);
      TrimRightBlank(w);
    } else {
      var y := x[1..];
      assert (x + w)[1..] == y + w;
      PiecesTail(y, w);
      HeaderCat(y, w);
      HeaderBlank(w);
      if Blank(y) {
        HeaderBlank(y);
      }
      if x[0] == '\n' && Header(y) {
        AlikeTrimmed(Pieces(y + w), Pieces(y), []);
        assert (["\n"] + Pieces(y + w))[1..] == Pieces(y + w);
        assert (["\n"] + Pieces(y))[1..] == Pieces(y);
      } else {
        AlikeCons(x[0], Pieces(y + w), Pieces(y), []);
      }
    }
  }

  /** An empty first piece is no section. */
  lemma SectionsPieces(t: string)
    ensures Sections(t) == Trimmed(Pieces(t))
  {
    assert ([""] + Pieces(t))[1..] == Pieces(t);
  }

  /** White space at the end of a text changes no section. */
  lemma TailSections(x: string, w: string)
    requires Blank(w)
    ensures Sections(x + w) == Sections(x)
  {
    PiecesTail(x, w);
    AlikeTrimmed(Pieces(x + w), Pieces(x), []);
    SectionsPieces(x);
    SectionsPieces(x + w);
  }

  predicate EndsText(a: string) {
    a == "" || a[|a| - 1] == '\n'
  }

  lemma AlikeCut(p: seq<string>, q: seq<string>, more: seq<string>)
    requires |p| > 0 && |q| > 0 && Alike(p, q, more)
    ensures Alike(["\n"] + p, ["\n"] + q, more)
  {
    AlikeTrimmed(p, q, more);
    assert (["\n"] + p)[1..] == p;
    assert (["\n"] + q)[1..] == q;
  }

  /** Blank lines in front of a header become pieces of their own. */
  lemma AlikeBlank(p: seq<string>, y: string, more: seq<string>)
    requires |p| > 0 && Blank(y) && Trimmed(p) == more
    ensures Alike(["\n"] + p, ["\n" + y], more)
  {
    assert (["\n"] + p)[1..] == p;
    TrimRightBlank("\n" + y);
    TrimRightBlank("\n");
  }

  /** A text that begins with a header is a text of its own wherever a line begins. */
  lemma {:induction false} PiecesAppend(a: string, s: string)
    requires a != "" && EndsText(a) && Header(s)
    ensures Alike(Pieces(a + s), Pieces(a), Trimmed(Pieces(s)))
  {
    hide Alike, Header, Trimmed;
    var y := a[1..];
    assert (a + s)[1..] == y + s && a == [a[0]] + y;
    if y == "" {
      assert y + s == s;
      PiecesBlank(a);
      AlikeBlank(Pieces(s), "", Trimmed(Pieces(s)));
    } else {
      PiecesAppend(y, s);
      HeaderCat(y, s);
      if a[0] == '\n' && Header(y) {
        if Blank(y) {
          HeaderBlank(y);
          assert false;
        }
        AlikeCut(Pieces(y + s), Pieces(y), Trimmed(Pieces(s)));
      } else if a[0] == '\n' && Blank(y) {
        PiecesBlank(y);
        PiecesBlank(a);
        TrimmedBlank([y]);
        AlikeTrimmed(Pieces(y + s), Pieces(y), Trimmed(Pieces(s)));
        AlikeBlank(Pieces(y + s), y, Trimmed(Pieces(s)));
      } else {
        AlikeCons(a[0], Pieces(y + s), Pieces(y), Trimmed(Pieces(s)));
      }
    }
  }

  lemma AppendSections(a: string, s: string)
    requires EndsText(a) && Header(s)
    ensures Sections(a + s) == Sections(a) + Sections(s)
  {
    SectionsPieces(a);
    SectionsPieces(s);
    SectionsPieces(a + s);
    hide Sections, Header;
    if a == "" {
      assert a + s == s;
    } else {
      PiecesAppend(a, s);
      AlikeTrimmed(Pieces(a + s), Pieces(a), Trimmed(Pieces(s)));
    }
  }

  // ---------------------------------------------------------------- putting blocks back together

  /** What every list of blocks cut from one text looks like, and still looks like when some are left out. */
  predicate Proper(bs: seq<string>) {
    && (forall i | 0 <= i < |bs| :: Pieces(bs[i]) == [bs[i]])
    && (forall i | 0 <= i < |bs| - 1 :: EndsText(bs[i]))
    && (forall i | 1 <= i < |bs| :: Blank(bs[i]) || Header(bs[i]))
  }

  lemma {:induction false} ConcatBlank(bs: seq<string>)
    requires forall i | 0 <= i < |bs| :: Blank(bs[i])
    ensures Blank(Concat(bs))
  {
    if bs != [] {
      ConcatBlank(bs[1..]);
    }
  }

  lemma {:induction false} TrimmedBlank(bs: seq<string>)
    requires forall i | 0 <= i < |bs| :: Blank(bs[i])
    ensures Trimmed(bs) == []
  {
    if bs != [] {
      TrimRightBlank(bs[0]);
      TrimmedBlank(bs[1..]);
    }
  }

  /** What follows the first block is white space or begins with a header. */
  lemma {:induction false} ConcatHeader(bs: seq<string>)
    requires forall i | 0 <= i < |bs| :: Blank(bs[i]) || Header(bs[i])
    requires forall i | 0 <= i < |bs| - 1 :: EndsText(bs[i])
    ensures (forall i | 0 <= i < |bs| :: Blank(bs[i])) || Header(Concat(bs))
  {
    if bs != [] {
      ConcatHeader(bs[1..]);
      if |bs| == 1 {
        assert Concat(bs) == bs[0];
      } else if bs[0] == "" {
        assert Concat(bs) == Concat(bs[1..]);
        HeaderBlank("");
      } else {
        HeaderCat(bs[0], Concat(bs[1..]));
        if Blank(bs[0]) {
          HeaderBlank(bs[0]);
        }
      }
      assert forall i | 1 <= i < |bs| :: bs[i] == bs[1..][i - 1];
    }
  }

  lemma OnePiece(b: string)
    requires Pieces(b) == [b]
    ensures Sections(b) == Trimmed([b])
  {
    SectionsPieces(b);
  }

  predicate AllBlank(bs: seq<string>) {
    forall i | 0 <= i < |bs| :: Blank(bs[i])
  }

  lemma JoinFirst(b: string, rest: seq<string>)
    requires Pieces(b) == [b] && Sections(Concat(rest)) == Trimmed(rest)
    requires AllBlank(rest) || (EndsText(b) && Header(Concat(rest)))
    ensures Sections(b + Concat(rest)) == Trimmed([b]) + Trimmed(rest)
  {
    OnePiece(b);
    if AllBlank(rest) {
      ConcatBlank(rest);
      TrimmedBlank(rest);
      TailSections(b, Concat(rest));
    } else {
      AppendSections(b, Concat(rest));
    }
  }

  /** Joining blocks and cutting the result again gives the same sections. */
  lemma {:induction false} JoinSections(bs: seq<string>)
    requires Proper(bs)
    ensures Sections(Concat(bs)) == Trimmed(bs)
  {
    if bs == [] {
      SectionsPieces("");
    } else {
      var rest := bs[1..];
      ConcatHeader(rest);
      hide Sections, Header, Blank, Pieces;
      JoinSections(rest);
      JoinFirst(bs[0], rest);
      assert Trimmed([bs[0]]) == if TrimRight(bs[0]) == "" then [] else [TrimRight(bs[0])];
    }
  }

  predicate EndsLines(ps: seq<string>) {
    forall i | 0 <= i < |ps| - 1 :: ps[i] != "" && ps[i][|ps[i]| - 1] == '\n'
  }

  predicate Begins(ps: seq<string>) {
    forall i | 1 <= i < |ps| :: Blank(ps[i]) || Header(ps[i])
  }

  predicate Single(ps: seq<string>) {
    forall i | 0 <= i < |ps| :: Pieces(ps[i]) == [ps[i]]
  }

  /** The header pattern sees the same in the first piece as in the whole text. */
  lemma FirstPiece(t: string)
    requires EndsLines(Pieces(t))
    ensures Header(t) <==> if Blank(Pieces(t)[0]) then Header(Concat(Pieces(t)[1..])) else Header(Pieces(t)[0])
    ensures Header(Pieces(t)[0]) ==> Header(t)
  {
    var ps := Pieces(t);
    PiecesConcat(t);
    assert t == ps[0] + Concat(ps[1..]);
    assert |ps| == 1 ==> Concat(ps[1..]) == "";
    HeaderCat(ps[0], Concat(ps[1..]));
    if Blank(ps[0]) {
      HeaderBlank(ps[0]);
    }
  }

  lemma SinglePiece(c: char, p: string)
    requires Pieces(p) == [p] && !(c == '\n' && Header(p))
    ensures Pieces([c] + p) == [[c] + p]
  {
    assert ([c] + p)[1..] == p;
  }

  predicate Cut(ps: seq<string>) {
    EndsLines(ps) && Begins(ps) && Single(ps)
  }

  lemma CutOff(ps: seq<string>)
    requires |ps| > 0 && Cut(ps) && (Blank(ps[0]) || Header(ps[0]))
    ensures Cut(["\n"] + ps)
  {
    hide Header;
    PiecesBlank("\n");
  }

  lemma CutOn(c: char, ps: seq<string>)
    requires |ps| > 0 && Cut(ps) && !(c == '\n' && Header(ps[0]))
    ensures Cut([[c] + ps[0]] + ps[1..])
  {
    hide Header;
    SinglePiece(c, ps[0]);
  }

  lemma {:induction false} PiecesProper(t: string)
    ensures Cut(Pieces(t))
  {
    if t == "" {
      assert Pieces("") == [""];
    } else {
      var rest := Pieces(t[1..]);
      PiecesProper(t[1..]);
      assert EndsLines(rest);
      FirstPiece(t[1..]);
      hide Header, Cut, EndsLines, Blank;
      if t[0] == '\n' && Header(t[1..]) {
        CutOff(rest);
      } else {
        CutOn(t[0], rest);
      }
    }
  }

  lemma EmptyFirst(ps: seq<string>)
    requires |ps| > 0 && Cut(ps) && (Blank(ps[0]) || Header(ps[0]))
    ensures Proper([""] + ps)
  {
    PiecesBlank("");
    hide Header, Blank;
  }

  /** Whatever a text is cut into has the shape that can be joined again. */
  lemma BlocksProper(t: string)
    ensures Proper(Blocks(t))
  {
    var ps := Pieces(t);
    PiecesProper(t);
    assert EndsLines(ps);
    FirstPiece(t);
    hide Header, Blank, Pieces;
    if Header(t) {
      EmptyFirst(ps);
    }
  }
}
