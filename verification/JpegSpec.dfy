/** Cutting a byte stream into JPEG images at their markers (frontend/src/kvm-video.js, backend/app/api/video.py;
    markers SOI and EOI of ITU-T T.81, section B.1.1.3). */
module JpegSpec {
  import opened Prelude

  /** The bytes 255, `code` stand at `i`. */
  predicate Marker(data: seq<Byte>, i: nat, code: Byte) {
    i + 1 < |data| && data[i] == 255 && data[i + 1] == code
  }

  const SOI: Byte := 216
  const EOI: Byte := 217

  /** The first marker from `from` on, or the end of the data. */
  function Find(data: seq<Byte>, from: nat, code: Byte): (r: nat)
    ensures r < |data| ==> from <= r && Marker(data, r, code)
    ensures r >= |data| ==> r == |data|
    ensures forall i | from <= i < r :: !Marker(data, i, code)
    decreases |data| - from
  {
    if from >= |data| then |data| else if Marker(data, from, code) then from else Find(data, from + 1, code)
  }

  datatype Scan = Scan(frames: seq<seq<Byte>>, pending: seq<Byte>)

  /** The first image: none begins, one begins, or one is complete. */
  datatype Cut = Nothing | Open(start: nat) | Whole(start: nat, end: nat)

  function FirstCut(data: seq<Byte>): (c: Cut)
    ensures c.Open? ==> c.start + 2 <= |data|
    ensures c.Whole? ==> c.start + 4 <= c.end <= |data|
  {
    var start := Find(data, 0, SOI);
    if start == |data| then Nothing
    else
      var end := Find(data, start + 2, EOI);
      if end == |data| then Open(start) else Whole(start, end + 2)
  }

  /** What is kept of data without a marker: a marker may be cut in two. */
  function LastByte(data: seq<Byte>): seq<Byte> {
    if data == [] then [] else data[|data| - 1..]
  }

  /** All complete images and what has to be kept for the next bytes. */
  function Split(data: seq<Byte>): Scan
    decreases |data|
  {
    match FirstCut(data)
    case Nothing => Scan([], LastByte(data))
    case Open(start) => Scan([], data[start..])
    case Whole(start, end) =>
      var rest := Split(data[end..]);
      Scan([data[start..end]] + rest.frames, rest.pending)
  }

  /** An image: SOI at the front, EOI at the end, and no EOI between its third byte and the end. */
  predicate Image(f: seq<Byte>) {
    |f| >= 4 && Marker(f, 0, SOI) && Marker(f, |f| - 2, EOI) && forall i | 2 <= i < |f| - 2 :: !Marker(f, i, EOI)
  }

  lemma {:induction false} FindAt(data: seq<Byte>, from: nat, code: Byte, at: nat)
    requires from <= at && Marker(data, at, code) && forall i | from <= i < at :: !Marker(data, i, code)
    ensures Find(data, from, code) == at
  {
  }

  lemma FindNone(data: seq<Byte>, from: nat, code: Byte)
    requires forall i | from <= i < |data| :: !Marker(data, i, code)
    ensures Find(data, from, code) == |data|
  {
  }

  lemma WholeIsImage(data: seq<Byte>)
    requires FirstCut(data).Whole?
    ensures Image(data[FirstCut(data).start..FirstCut(data).end])
  {
    hide Find;
    var c := FirstCut(data);
    var f := data[c.start..c.end];
    forall i | 2 <= i < |f| - 2
      ensures !Marker(f, i, EOI)
    {
      assert !Marker(data, c.start + i, EOI);
    }
  }

  /** Every piece that is cut out is an image. */
  lemma {:induction false} FramesAreImages(data: seq<Byte>)
    ensures forall f | f in Split(data).frames :: Image(f)
    decreases |data|
  {
    hide FirstCut, Image;
    var c := FirstCut(data);
    if c.Whole? {
      WholeIsImage(data);
      FramesAreImages(data[c.end..]);
    }
  }

  // ---------------------------------------------------------------- nothing is missed

  /** No image begins inside `gap` when `next` follows. */
  predicate NoStart(gap: seq<Byte>, next: seq<Byte>) {
    forall i | 0 <= i < |gap| :: !Marker(gap + next, i, SOI)
  }

  function Weave(gaps: seq<seq<Byte>>, frames: seq<seq<Byte>>): seq<Byte>
    requires |gaps| == |frames|
  {
    if gaps == [] then [] else gaps[0] + frames[0] + Weave(gaps[1..], frames[1..])
  }

  predicate NoStartBefore(data: seq<Byte>, k: nat) {
    forall i | 0 <= i < k :: !Marker(data, i, SOI)
  }

  /** No image begins in front of the place of the first cut. */
  lemma CutStart(data: seq<Byte>)
    ensures NoStartBefore(data, match FirstCut(data) case Nothing => |data| case Open(s) => s case Whole(s, _) => s)
  {
    hide Find;
  }

  lemma GapStart(data: seq<Byte>, k: nat, end: nat)
    requires k <= end <= |data| && NoStartBefore(data, k)
    ensures NoStart(data[..k], data[k..end])
  {
    assert data[..k] + data[k..end] == data[..end];
    forall i | 0 <= i < k
      ensures !Marker(data[..k] + data[k..end], i, SOI)
    {
      assert !Marker(data, i, SOI);
    }
  }

  /** The data is its images with gaps in front of them in which no image begins, and a tail without a complete image
      whose end is what is kept. */
  ghost predicate Accounted(data: seq<Byte>, gaps: seq<seq<Byte>>, frames: seq<seq<Byte>>, tail: seq<Byte>,
                            pending: seq<Byte>)
  {
    && |gaps| == |frames| && data == Weave(gaps, frames) + tail
    && (forall i | 0 <= i < |gaps| :: NoStart(gaps[i], frames[i]))
    && TailOf(tail, pending)
  }

  ghost predicate TailOf(tail: seq<Byte>, pending: seq<Byte>) {
    && |pending| <= |tail| && tail[|tail| - |pending|..] == pending
    && NoStart(tail[..|tail| - |pending|], pending)
    && !FirstCut(tail).Whole?
  }

  lemma TailKept(data: seq<Byte>)
    requires !FirstCut(data).Whole?
    ensures TailOf(data, Split(data).pending)
  {
    CutStart(data);
    hide FirstCut;
    var kept := |data| - |Split(data).pending|;
    GapStart(data, kept, |data|);
    assert data[kept..|data|] == Split(data).pending;
  }

  lemma AccountedCons(gap: seq<Byte>, f: seq<Byte>, rest: seq<Byte>, gaps: seq<seq<Byte>>, frames: seq<seq<Byte>>,
                      tail: seq<Byte>, pending: seq<Byte>)
    requires Accounted(rest, gaps, frames, tail, pending) && NoStart(gap, f)
    ensures Accounted(gap + f + rest, [gap] + gaps, [f] + frames, tail, pending)
  {
    hide TailOf, NoStart;
    assert ([gap] + gaps)[1..] == gaps && ([f] + frames)[1..] == frames;
    assert gap + f + (Weave(gaps, frames) + tail) == gap + f + Weave(gaps, frames) + tail;
  }

  lemma {:induction false} NothingMissed(data: seq<Byte>) returns (gaps: seq<seq<Byte>>, tail: seq<Byte>)
    ensures Accounted(data, gaps, Split(data).frames, tail, Split(data).pending)
    decreases |data|
  {
    var c := FirstCut(data);
    if c.Whole? {
      hide FirstCut, NoStart, Accounted, Split, Find, Marker;
      CutStart(data);
      SplitWhole(data);
      var rest := data[c.end..];
      var gaps', tail' := NothingMissed(rest);
      gaps, tail := [data[..c.start]] + gaps', tail';
      GapStart(data, c.start, c.end);
      AccountedCons(data[..c.start], data[c.start..c.end], rest, gaps', Split(rest).frames, tail, Split(rest).pending);
      assert data == data[..c.start] + data[c.start..c.end] + rest;
    } else {
      gaps, tail := [], data;
      TailKept(data);
      hide FirstCut, TailOf;
    }
  }

  // ---------------------------------------------------------------- chunking does not matter

  lemma FindMore(a: seq<Byte>, b: seq<Byte>, from: nat, code: Byte)
    requires Find(a, from, code) < |a|
    ensures Find(a + b, from, code) == Find(a, from, code)
  {
    hide Find;
    var at := Find(a, from, code);
    forall i | from <= i < at
      ensures !Marker(a + b, i, code)
    {
      assert !Marker(a, i, code);
    }
    FindAt(a + b, from, code, at);
  }

  lemma FindShift(a: seq<Byte>, k: nat, from: nat, code: Byte)
    requires k <= from <= |a|
    ensures Find(a, from, code) == k + Find(a[k..], from - k, code)
  {
    hide Find;
    var at := Find(a[k..], from - k, code);
    forall i | from <= i < k + at
      ensures !Marker(a, i, code)
    {
      assert !Marker(a[k..], i - k, code);
    }
    if at < |a[k..]| {
      FindAt(a, from, code, k + at);
    } else {
      FindNone(a, from, code);
    }
  }

  function Shift(c: Cut, k: nat): Cut {
    match c
    case Nothing => Nothing
    case Open(start) => Open(start + k)
    case Whole(start, end) => Whole(start + k, end + k)
  }

  lemma CutSkip(data: seq<Byte>, k: nat)
    requires k < |data| && NoStartBefore(data, k)
    ensures FirstCut(data) == Shift(FirstCut(data[k..]), k)
  {
    FindSkip(data, k);
    var start := Find(data[k..], 0, SOI);
    if start < |data[k..]| {
      FindShift(data, k, k + start + 2, EOI);
    }
  }

  lemma Slices(data: seq<Byte>, k: nat, i: nat, j: nat)
    requires k <= |data| && i <= j <= |data| - k
    ensures data[k..][i..j] == data[k + i..k + j] && data[k..][i..] == data[k + i..]
  {
  }

  lemma SplitKeeps(data: seq<Byte>)
    ensures FirstCut(data) == Nothing ==> Split(data) == Scan([], LastByte(data))
    ensures FirstCut(data).Open? ==> Split(data) == Scan([], data[FirstCut(data).start..])
  {
    hide FirstCut;
  }

  /** Bytes in front of the first SOI make no difference. */
  lemma SplitSkip(data: seq<Byte>, k: nat)
    requires k < |data| && NoStartBefore(data, k)
    ensures Split(data) == Split(data[k..])
  {
    hide FirstCut, NoStartBefore, Split, Find, Marker;
    var rest := data[k..];
    CutSkip(data, k);
    var c := FirstCut(rest);
    SplitKeeps(data);
    SplitKeeps(rest);
    if c.Whole? {
      SplitWhole(data);
      SplitWhole(rest);
      Slices(data, k, c.start, c.end);
      Slices(data, k, c.end, c.end);
    } else if c.Open? {
      Slices(data, k, c.start, c.start);
    } else {
      Slices(data, k, |rest| - 1, |rest| - 1);
    }
  }

  lemma FindSkip(data: seq<Byte>, k: nat)
    requires k < |data| && NoStartBefore(data, k)
    ensures Find(data, 0, SOI) == k + Find(data[k..], 0, SOI)
  {
    FindShift(data, k, k, SOI);
    hide Find;
    var at := Find(data, k, SOI);
    if at < |data| {
      FindAt(data, 0, SOI, at);
    } else {
      FindNone(data, 0, SOI);
    }
  }

  lemma CutMore(a: seq<Byte>, b: seq<Byte>)
    requires FirstCut(a).Whole?
    ensures FirstCut(a + b) == FirstCut(a)
  {
    FindMore(a, b, 0, SOI);
    FindMore(a, b, Find(a, 0, SOI) + 2, EOI);
  }

  /** Where the kept bytes begin: no image begins before, also when more follows. */
  lemma KeptStart(a: seq<Byte>, b: seq<Byte>)
    requires a != [] && !FirstCut(a).Whole?
    ensures |Split(a).pending| > 0 && Split(a) == Scan([], a[|a| - |Split(a).pending|..])
    ensures NoStartBefore(a + b, |a| - |Split(a).pending|)
  {
    CutStart(a);
    hide FirstCut;
    forall i | 0 <= i < |a| - |Split(a).pending|
      ensures !Marker(a + b, i, SOI)
    {
      assert !Marker(a, i, SOI);
    }
  }

  predicate Continues(a: seq<Byte>, b: seq<Byte>) {
    var first := Split(a);
    var rest := Split(first.pending + b);
    Split(a + b) == Scan(first.frames + rest.frames, rest.pending)
  }

  lemma SplitMoreKept(a: seq<Byte>, b: seq<Byte>)
    requires a != [] && !FirstCut(a).Whole?
    ensures Continues(a, b)
  {
    var k := KeptAt(a, b);
    hide FirstCut, NoStartBefore, Split, Continues;
    assert (a + b)[k..] == a[k..] + b;
    SplitSkip(a + b, k);
    ContinuesFrom(a, b, Scan([], a[k..]), Split(a[k..] + b));
    assert [] + Split(a[k..] + b).frames == Split(a[k..] + b).frames;
  }

  lemma KeptAt(a: seq<Byte>, b: seq<Byte>) returns (k: nat)
    requires a != [] && !FirstCut(a).Whole?
    ensures k < |a| && Split(a) == Scan([], a[k..]) && NoStartBefore(a + b, k)
  {
    assert |Split(a).pending| <= |a|;
    hide FirstCut, NoStartBefore, Split;
    KeptStart(a, b);
    k := |a| - |Split(a).pending|;
  }

  lemma SplitWhole(data: seq<Byte>)
    requires FirstCut(data).Whole?
    ensures var c := FirstCut(data);
            var rest := Split(data[c.end..]);
            Split(data) == Scan([data[c.start..c.end]] + rest.frames, rest.pending)
  {
    hide FirstCut;
  }

  lemma SplitWholeMore(a: seq<Byte>, b: seq<Byte>)
    requires FirstCut(a).Whole?
    ensures var c := FirstCut(a);
            var rest := Split(a[c.end..] + b);
            Split(a + b) == Scan([a[c.start..c.end]] + rest.frames, rest.pending)
  {
    CutMore(a, b);
    SplitWhole(a + b);
    hide *;
    var c := FirstCut(a);
    assert (a + b)[c.start..c.end] == a[c.start..c.end];
    assert (a + b)[c.end..] == a[c.end..] + b;
  }

  lemma ContinuesFrom(a: seq<Byte>, b: seq<Byte>, first: Scan, rest: Scan)
    requires first == Split(a) && rest == Split(first.pending + b)
    ensures Continues(a, b) <==> Split(a + b) == Scan(first.frames + rest.frames, rest.pending)
  {
    hide Split;
  }

  lemma SplitMoreWhole(a: seq<Byte>, b: seq<Byte>)
    requires FirstCut(a).Whole? && Continues(a[FirstCut(a).end..], b)
    ensures Continues(a, b)
  {
    hide *;
    SplitWhole(a);
    SplitWholeMore(a, b);
    var c := FirstCut(a);
    var f, first := [a[c.start..c.end]], Split(a[c.end..]);
    var rest := Split(first.pending + b);
    ContinuesFrom(a[c.end..], b, first, rest);
    assert f + (first.frames + rest.frames) == f + first.frames + rest.frames;
    ContinuesFrom(a, b, Scan(f + first.frames, first.pending), rest);
  }

  /** Cutting first and going on with what was kept gives the same images as cutting everything at once. */
  lemma {:induction false} SplitMore(a: seq<Byte>, b: seq<Byte>)
    ensures Continues(a, b)
    decreases |a|
  {
    if a == [] {
      assert a + b == b && Split(a) == Scan([], []);
      assert [] + b == b && [] + Split(b).frames == Split(b).frames;
    } else if FirstCut(a).Whole? {
      SplitMore(a[FirstCut(a).end..], b);
      SplitMoreWhole(a, b);
    } else {
      SplitMoreKept(a, b);
    }
  }

  /** Pushing chunk after chunk, beginning with `pending`. */
  function PushAll(pending: seq<Byte>, chunks: seq<seq<Byte>>): Scan
    decreases |chunks|
  {
    if chunks == [] then Scan([], pending)
    else
      var first := Split(pending + chunks[0]);
      var rest := PushAll(first.pending, chunks[1..]);
      Scan(first.frames + rest.frames, rest.pending)
  }

  /** What is kept is a fixed point of cutting. */
  lemma {:induction false} PendingSplit(data: seq<Byte>)
    ensures Split(Split(data).pending) == Scan([], Split(data).pending)
    decreases |data|
  {
    SplitMore(data, []);
    assert data + [] == data && Split(data).pending + [] == Split(data).pending;
    assert Split(data).frames + Split(Split(data).pending).frames == Split(data).frames;
  }

  /** However a stream is cut into chunks, the images are those of the whole stream. */
  lemma {:induction false} ChunksDoNotMatter(pending: seq<Byte>, chunks: seq<seq<Byte>>)
    requires Split(pending) == Scan([], pending)
    ensures PushAll(pending, chunks) == Split(pending + Concat(chunks))
    decreases |chunks|
  {
    hide Split;
    if chunks == [] {
      assert pending + [] == pending;
    } else {
      var first := Split(pending + chunks[0]);
      SplitMore(pending + chunks[0], Concat(chunks[1..]));
      assert pending + Concat(chunks) == pending + chunks[0] + Concat(chunks[1..]);
      PendingSplit(pending + chunks[0]);
      ChunksDoNotMatter(first.pending, chunks[1..]);
    }
  }
}
