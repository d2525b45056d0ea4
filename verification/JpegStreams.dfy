/** The two places where the video stream is cut into images: the browser's class (frontend/src/kvm-video.js), which
    refuses to hold more than 8 MiB, and the server's loop (backend/app/api/video.py), which forgets more than 16 MiB. */
module JpegStreams {
  import opened Prelude
  import opened JpegSpec

  const BROWSER_LIMIT: nat := 8 * 1024 * 1024
  const SERVER_LIMIT: nat := 16 * 1024 * 1024

  // ---------------------------------------------------------------- what is kept stays bounded

  predicate Kept(pending: seq<Byte>) {
    Split(pending) == Scan([], pending)
  }

  /** Kept bytes are one byte at most, or the beginning of an image that is at least that long when it is complete. */
  lemma KeptBound(pending: seq<Byte>, more: seq<Byte>)
    requires Kept(pending)
    ensures var s := Split(pending + more);
            || |pending| <= 1
            || (s.frames != [] && |s.frames[0]| >= |pending|)
            || (s.frames == [] && |s.pending| >= |pending|)
  {
    if |pending| > 1 {
      var data := pending + more;
      KeptOpen(pending);
      FindMore(pending, more, 0, SOI);
      var end := Find(data, 2, EOI);
      if end < |pending| - 1 {
        assert Marker(pending, end, EOI);
        assert false;
      }
    }
  }

  lemma KeptOpen(pending: seq<Byte>)
    requires Kept(pending) && |pending| > 1
    ensures Find(pending, 0, SOI) == 0 && Find(pending, 2, EOI) == |pending|
  {
    hide Find;
    var c := FirstCut(pending);
    if c.Open? {
      assert |pending[c.start..]| == |pending| - c.start;
    }
  }

  predicate Within(s: Scan, bound: int) {
    (forall i | 0 <= i < |s.frames| :: |s.frames[i]| <= bound) && |s.pending| <= bound
  }

  /** If the images of the rest of a stream keep a bound, so do the bytes kept in between. */
  lemma KeptWithin(pending: seq<Byte>, more: seq<Byte>, bound: int)
    requires Kept(pending) && Within(Split(pending + more), bound) && bound >= 1
    ensures |pending| <= bound
  {
    hide Split, Kept;
    KeptBound(pending, more);
  }

  lemma NextKept(data: seq<Byte>, more: seq<Byte>, bound: int)
    requires Within(Split(data + more), bound)
    ensures var next := Split(data).pending;
            && Kept(next) && Within(Split(next + more), bound)
            && Split(data + more) == Scan(Split(data).frames + Split(next + more).frames, Split(next + more).pending)
  {
    PendingSplit(data);
    SplitMore(data, more);
    hide Split;
    var first := Split(data);
    var rest := Split(first.pending + more);
    forall i | 0 <= i < |rest.frames|
      ensures |rest.frames[i]| <= bound
    {
      assert rest.frames[i] == (first.frames + rest.frames)[|first.frames| + i];
    }
  }

  lemma ConcatFirst(pending: seq<Byte>, chunks: seq<seq<Byte>>)
    ensures pending + Concat(chunks) == if chunks == [] then pending else (pending + chunks[0]) + Concat(chunks[1..])
  {
  }

  // ---------------------------------------------------------------- the browser

  /** `None` where a push throws. */
  function Pushes(pending: seq<Byte>, chunks: seq<seq<Byte>>): Option<Scan>
    decreases |chunks|
  {
    if chunks == [] then Some(Scan([], pending))
    else if |pending| + |chunks[0]| > BROWSER_LIMIT then None
    else
      var first := Split(pending + chunks[0]);
      var rest := Pushes(first.pending, chunks[1..]);
      if rest.None? then None else Some(Scan(first.frames + rest.value.frames, rest.value.pending))
  }

  predicate Chunks(chunks: seq<seq<Byte>>, size: nat) {
    forall i | 0 <= i < |chunks| :: |chunks[i]| <= size
  }

  lemma {:induction false} PushesWithin(pending: seq<Byte>, chunks: seq<seq<Byte>>, size: nat, whole: Scan)
    requires Kept(pending) && Chunks(chunks, size) && size < BROWSER_LIMIT
    requires whole == Split(pending + Concat(chunks)) && Within(whole, BROWSER_LIMIT - size)
    ensures Pushes(pending, chunks) == Some(whole)
    decreases |chunks|
  {
    hide Split, Kept, Within, Concat;
    KeptWithin(pending, Concat(chunks), BROWSER_LIMIT - size);
    ConcatFirst(pending, chunks);
    if chunks == [] {
      KeptWhole(pending);
    } else {
      var data, more := pending + chunks[0], Concat(chunks[1..]);
      NextKept(data, more, BROWSER_LIMIT - size);
      PushesWithin(Split(data).pending, chunks[1..], size, Split(Split(data).pending + more));
    }
  }

  lemma KeptWhole(pending: seq<Byte>)
    requires Kept(pending)
    ensures Split(pending) == Scan([], pending)
  {
  }

  /** A stream whose images leave room for one chunk more is never refused, and every chunking of it gives its images. */
  lemma BrowserImages(pending: seq<Byte>, chunks: seq<seq<Byte>>, size: nat)
    requires Kept(pending) && Chunks(chunks, size) && size < BROWSER_LIMIT
    requires Within(Split(pending + Concat(chunks)), BROWSER_LIMIT - size)
    ensures Pushes(pending, chunks) == Some(Split(pending + Concat(chunks)))
  {
    hide *;
    PushesWithin(pending, chunks, size, Split(pending + Concat(chunks)));
  }

  /** Where a loop stands that has found some images and has `rest` before it. */
  predicate Progress(all: seq<Byte>, found: seq<seq<Byte>>, rest: seq<Byte>) {
    Split(all) == Scan(found + Split(rest).frames, Split(rest).pending)
  }

  lemma ProgressStart(all: seq<Byte>)
    ensures Progress(all, [], all)
  {
    hide Split;
    assert [] + Split(all).frames == Split(all).frames;
  }

  lemma ProgressImage(all: seq<Byte>, found: seq<seq<Byte>>, rest: seq<Byte>)
    requires Progress(all, found, rest) && FirstCut(rest).Whole?
    ensures Progress(all, found + [rest[FirstCut(rest).start..FirstCut(rest).end]], rest[FirstCut(rest).end..])
  {
    SplitWhole(rest);
    hide Split, FirstCut;
    var c := FirstCut(rest);
    var tail := Split(rest[c.end..]).frames;
    assert found + ([rest[c.start..c.end]] + tail) == found + [rest[c.start..c.end]] + tail;
  }

  lemma ProgressEnd(all: seq<Byte>, found: seq<seq<Byte>>, rest: seq<Byte>)
    requires Progress(all, found, rest) && !FirstCut(rest).Whole?
    ensures Split(all) == Scan(found, if FirstCut(rest).Open? then rest[FirstCut(rest).start..] else LastByte(rest))
  {
    SplitKeeps(rest);
    hide Split, FirstCut;
    assert found + [] == found;
  }

  /** The two searches of a loop find the first image. */
  lemma CutIs(data: seq<Byte>, start: nat, end: nat)
    requires start == Find(data, 0, SOI) && (start < |data| ==> end == Find(data, start + 2, EOI))
    ensures FirstCut(data) == if start == |data| then Nothing else if end == |data| then Open(start) else Whole(start, end + 2)
    ensures start < |data| && end < |data| ==> start + 2 <= end && end + 2 <= |data|
  {
    hide Find;
  }

  lemma FoundImage(all: seq<Byte>, found: seq<seq<Byte>>, rest: seq<Byte>, start: nat, end: nat)
    requires Progress(all, found, rest) && start == Find(rest, 0, SOI) && start < |rest|
    requires end == Find(rest, start + 2, EOI) && end < |rest|
    ensures start + 2 <= end && end + 2 <= |rest|
    ensures Progress(all, found + [rest[start..end + 2]], rest[end + 2..])
  {
    hide Progress, Find, FirstCut, Marker;
    CutIs(rest, start, end);
    ProgressImage(all, found, rest);
  }

  lemma FoundNone(all: seq<Byte>, found: seq<seq<Byte>>, rest: seq<Byte>, start: nat)
    requires Progress(all, found, rest) && start == Find(rest, 0, SOI)
    requires start < |rest| ==> Find(rest, start + 2, EOI) == |rest|
    ensures Split(all) == Scan(found, if start == |rest| then LastByte(rest) else rest[start..])
  {
    hide Progress, Find, FirstCut, Marker, Split;
    CutIs(rest, start, |rest|);
    ProgressEnd(all, found, rest);
  }

  class JPEGFrames {
    var pending: seq<Byte>

    constructor ()
      ensures pending == []
    {
      pending := [];
    }

    /** The images completed by `chunk`; `None` stands for the error, which leaves everything as it was. */
    method Push(chunk: seq<Byte>) returns (frames: Option<seq<seq<Byte>>>)
      modifies this
      ensures frames.None? <==> old(|pending|) + |chunk| > BROWSER_LIMIT
      ensures frames.None? ==> pending == old(pending)
      ensures frames.Some? ==> Scan(frames.value, pending) == Split(old(pending) + chunk)
    {
      if |pending| + |chunk| > BROWSER_LIMIT {
        return None;
      }
      var data := Join(pending, chunk);
      var found, rest := CutImages(data);
      pending := rest;
      frames := Some(found);
    }
  }

  /** The bytes held back and the new ones in one array. */
  method Join(pending: seq<Byte>, chunk: seq<Byte>) returns (data: array<Byte>)
    ensures fresh(data) && data[..] == pending + chunk
  {
    data := new Byte[|pending| + |chunk|];
    forall i | 0 <= i < |pending| {
      data[i] := pending[i];
    }
    forall i | 0 <= i < |chunk| {
      data[|pending| + i] := chunk[i];
    }
  }

  /** The scan for markers: the complete images, and the bytes to keep. */
  method CutImages(data: array<Byte>) returns (found: seq<seq<Byte>>, rest: seq<Byte>)
    ensures Scan(found, rest) == Split(data[..])
  {
    hide Split, Find, FirstCut, Progress;
    ghost var all := data[..];
    found := [];
    var offset := 0;
    assert all[0..] == all;
    ProgressStart(all);
    while offset < data.Length
      invariant offset <= data.Length && data[..] == all
      invariant Progress(all, found, all[offset..])
    {
      var start := -1;
      var i := offset;
      while i + 1 < data.Length && start < 0
        invariant offset <= i <= data.Length
        invariant start < 0 ==> forall k | offset <= k < i :: !Marker(all, k, SOI)
        invariant start >= 0 ==> Begins(all, offset, start)
      {
        if data[i] == 255 && data[i + 1] == 216 {
          start := i;
        }
        i := i + 1;
      }
      if start < 0 {
        CutNone(all, offset);
        ProgressEnd(all, found, all[offset..]);
        return found, data[data.Length - 1..];
      }
      var end := -1;
      i := start + 2;
      while i + 1 < data.Length && end < 0
        invariant start + 2 <= i
        invariant end < 0 ==> forall k | start + 2 <= k < i :: !Marker(all, k, EOI)
        invariant end >= 0 ==> start + 4 <= end && Marker(all, end - 2, EOI)
        invariant end >= 0 ==> forall k | start + 2 <= k < end - 2 :: !Marker(all, k, EOI)
      {
        if data[i] == 255 && data[i + 1] == 217 {
          end := i + 2;
        }
        i := i + 1;
      }
      if end < 0 {
        CutOpen(all, offset, start);
        ProgressEnd(all, found, all[offset..]);
        return found, data[start..];
      }
      CutWhole(all, offset, start, end);
      ProgressImage(all, found, all[offset..]);
      found := found + [data[start..end]];
      offset := end;
    }
    rest := [];
    NothingLeft(all[offset..]);
    ProgressEnd(all, found, all[offset..]);
  }

  lemma NothingLeft(rest: seq<Byte>)
    requires rest == []
    ensures FirstCut(rest) == Nothing
  {
  }

  lemma CutNone(all: seq<Byte>, offset: nat)
    requires offset < |all| && forall k | offset <= k < |all| - 1 :: !Marker(all, k, SOI)
    ensures FirstCut(all[offset..]) == Nothing && LastByte(all[offset..]) == all[|all| - 1..]
  {
    FindNone(all, offset, SOI);
    FindShift(all, offset, offset, SOI);
    hide Find;
  }

  predicate Begins(all: seq<Byte>, offset: nat, start: nat) {
    offset <= start && Marker(all, start, SOI) && forall k | offset <= k < start :: !Marker(all, k, SOI)
  }

  lemma CutOpen(all: seq<Byte>, offset: nat, start: nat)
    requires Begins(all, offset, start) && forall k | start + 2 <= k < |all| - 1 :: !Marker(all, k, EOI)
    ensures FirstCut(all[offset..]) == Open(start - offset) && all[offset..][start - offset..] == all[start..]
  {
    FindAt(all, offset, SOI, start);
    FindShift(all, offset, offset, SOI);
    FindNone(all, start + 2, EOI);
    FindShift(all, offset, start + 2, EOI);
    hide Find;
    Slices(all, offset, start - offset, start - offset);
  }

  lemma CutWhole(all: seq<Byte>, offset: nat, start: nat, end: nat)
    requires Begins(all, offset, start) && start + 4 <= end && Marker(all, end - 2, EOI)
    requires forall k | start + 2 <= k < end - 2 :: !Marker(all, k, EOI)
    ensures FirstCut(all[offset..]) == Whole(start - offset, end - offset)
    ensures all[offset..][start - offset..end - offset] == all[start..end]
    ensures all[offset..][end - offset..] == all[end..]
  {
    FindAt(all, offset, SOI, start);
    FindShift(all, offset, offset, SOI);
    FindAt(all, start + 2, EOI, end - 2);
    FindShift(all, offset, start + 2, EOI);
    hide Find;
    Slices(all, offset, start - offset, end - offset);
    Slices(all, offset, end - offset, end - offset);
  }

  // ---------------------------------------------------------------- the server

  datatype Latest = Latest(pending: seq<Byte>, frame: Option<seq<Byte>>)

  function LastOf(frames: seq<seq<Byte>>, before: Option<seq<Byte>>): Option<seq<Byte>> {
    if frames == [] then before else Some(frames[|frames| - 1])
  }

  function Feed(s: Latest, chunk: seq<Byte>): Latest {
    var scan := Split(s.pending + chunk);
    Latest(if |scan.pending| > SERVER_LIMIT then [] else scan.pending, LastOf(scan.frames, s.frame))
  }

  function FeedAll(s: Latest, chunks: seq<seq<Byte>>): Latest
    decreases |chunks|
  {
    if chunks == [] then s else FeedAll(Feed(s, chunks[0]), chunks[1..])
  }

  lemma {:induction false} FeedsWithin(s: Latest, chunks: seq<seq<Byte>>, whole: Scan)
    requires Kept(s.pending) && whole == Split(s.pending + Concat(chunks)) && Within(whole, SERVER_LIMIT)
    ensures FeedAll(s, chunks) == Latest(whole.pending, LastOf(whole.frames, s.frame))
    decreases |chunks|
  {
    hide Split, Kept, Concat, Within;
    ConcatFirst(s.pending, chunks);
    if chunks == [] {
      KeptWhole(s.pending);
    } else {
      var data, more := s.pending + chunks[0], Concat(chunks[1..]);
      NextKept(data, more, SERVER_LIMIT);
      KeptWithin(Split(data).pending, more, SERVER_LIMIT);
      FeedsWithin(Feed(s, chunks[0]), chunks[1..], Split(Split(data).pending + more));
    }
  }

  /** A stream whose images keep the limit is never forgotten: the latest image is the last one of the stream. */
  lemma ServerLatest(s: Latest, chunks: seq<seq<Byte>>)
    requires Kept(s.pending) && Within(Split(s.pending + Concat(chunks)), SERVER_LIMIT)
    ensures var all := Split(s.pending + Concat(chunks));
            FeedAll(s, chunks) == Latest(all.pending, LastOf(all.frames, s.frame))
  {
    hide *;
    FeedsWithin(s, chunks, Split(s.pending + Concat(chunks)));
  }

  /** Browser and server agree: over the same bytes, cut into chunks in any two ways, the server's latest image is the
      last one the browser got. */
  lemma SameImage(forBrowser: seq<seq<Byte>>, forServer: seq<seq<Byte>>, size: nat)
    requires Concat(forBrowser) == Concat(forServer) && Chunks(forBrowser, size) && size < BROWSER_LIMIT
    requires Within(Split(Concat(forBrowser)), BROWSER_LIMIT - size)
    ensures Pushes([], forBrowser).Some?
    ensures FeedAll(Latest([], None), forServer).frame == LastOf(Pushes([], forBrowser).value.frames, None)
  {
    assert Kept([]);
    hide Split, Kept;
    assert [] + Concat(forBrowser) == Concat(forBrowser);
    assert Within(Split(Concat(forBrowser)), SERVER_LIMIT);
    BrowserImages([], forBrowser, size);
    ServerLatest(Latest([], None), forServer);
  }

  class FrameReader {
    var pending: seq<Byte>
    var latest: Option<seq<Byte>>

    constructor ()
      ensures pending == [] && latest == None
    {
      pending, latest := [], None;
    }

    method Read(chunk: seq<Byte>)
      modifies this
      ensures Latest(pending, latest) == Feed(old(Latest(pending, latest)), chunk)
    {
      pending := pending + chunk;
      ghost var all := pending;
      ghost var found: seq<seq<Byte>> := [];
      hide Split, Progress, Find, Marker;
      ProgressStart(all);
      while true
        invariant Progress(all, found, pending)
        invariant latest == LastOf(found, old(latest))
        decreases |pending|
      {
        var start := Find(pending, 0, SOI);
        if start == |pending| {
          FoundNone(all, found, pending, start);
          pending := LastByte(pending);
          break;
        }
        var end := Find(pending, start + 2, EOI);
        if end == |pending| {
          FoundNone(all, found, pending, start);
          pending := pending[start..];
          break;
        }
        FoundImage(all, found, pending, start, end);
        var frame := pending[start..end + 2];
        found := found + [frame];
        pending := pending[end + 2..];
        latest := Some(frame);
      }
      if |pending| > SERVER_LIMIT {
        pending := [];
      }
    }
  }
}
