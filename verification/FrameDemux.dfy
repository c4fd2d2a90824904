/** The capture pipeline's `data` handler: ffmpeg's stdout is a motion-JPEG byte
    stream; every chunk is appended to a buffer, and each complete frame, from a
    start-of-image marker `FF D8` to the next end-of-image marker `FF D9` at least
    two bytes later, is cut out and sent, dropping the bytes before and including it. */
module FrameDemux {

  const MARKER: bv8 := 0xFF
  /** Second byte of the start-of-image marker. */
  const SOI: bv8 := 0xD8
  /** Second byte of the end-of-image marker. */
  const EOI: bv8 := 0xD9

  /** The two-byte marker `FF second` starts at position `p`. */
  predicate MarkerAt(buf: seq<bv8>, p: int, second: bv8) {
    0 <= p && p + 1 < |buf| && buf[p] == MARKER && buf[p + 1] == second
  }

  /** `buf.indexOf(Buffer.from([0xff, second]), from)`: the first position at or
      after `from` where the marker starts, or -1. */
  function IndexOf(buf: seq<bv8>, second: bv8, from: nat): (k: int)
    ensures k == -1 || (from <= k && MarkerAt(buf, k, second))
    decreases |buf| - from
  {
    if from + 1 >= |buf| then -1
    else if buf[from] == MARKER && buf[from + 1] == second then from
    else IndexOf(buf, second, from + 1)
  }

  /** `indexOf` finds the first marker: there is none at a position `p` between
      `from` and the position it returns, or after `from` when it returns -1. */
  lemma {:induction false} IndexOfFirst(buf: seq<bv8>, second: bv8, from: nat, p: int)
    requires from <= p
    requires IndexOf(buf, second, from) == -1 || p < IndexOf(buf, second, from)
    ensures !MarkerAt(buf, p, second)
    decreases |buf| - from
  {
    if from + 1 < |buf| && !(buf[from] == MARKER && buf[from + 1] == second) && from < p {
      IndexOfFirst(buf, second, from + 1, p);
    }
  }

  /** The frames cut from a buffer, in order, and the bytes kept for the next chunk. */
  datatype Demuxed = Demuxed(frames: seq<seq<bv8>>, rest: seq<bv8>)

  /** What the `while` loop does to a buffer. */
  function Extract(buf: seq<bv8>): Demuxed
    decreases |buf|
  {
    var start := IndexOf(buf, SOI, 0);
    var end := IndexOf(buf, EOI, start + 2);
    if start == -1 || end == -1 then Demuxed([], buf)
    else
      var more := Extract(buf[end + 2..]);
      Demuxed([buf[start..end + 2]] + more.frames, more.rest)
  }

  /** One `data` event: append the chunk and cut out every complete frame. The
      frames are the stream's own bytes, in order: the buffer is some dropped gaps
      interleaved with the frames, followed by the retained `rest`. */
  method Demux(buffer: seq<bv8>, chunk: seq<bv8>) returns (frames: seq<seq<bv8>>, rest: seq<bv8>)
    ensures Demuxed(frames, rest) == Extract(buffer + chunk)
    ensures forall f :: f in frames ==> IsFrame(f)
    ensures !HasCompleteFrame(rest)
    ensures var gaps := Gaps(buffer + chunk);
      && |gaps| == |frames| && buffer + chunk == Interleave(gaps, frames, rest)
      && forall k :: 0 <= k < |frames| ==> Cut(gaps[k], frames[k])
  {
    var buf := buffer + chunk;
    var start := IndexOf(buf, SOI, 0);
    var end := IndexOf(buf, EOI, start + 2);
    frames := [];
    while start != -1 && end != -1
      invariant start == IndexOf(buf, SOI, 0) && end == IndexOf(buf, EOI, start + 2)
      invariant Extract(buffer + chunk) == Demuxed(frames + Extract(buf).frames, Extract(buf).rest)
      decreases |buf|
    {
      var jpeg := buf[start..end + 2];
      CutOne(Extract(buffer + chunk), frames, buf, start, end);
      frames := frames + [jpeg];
      buf := buf[end + 2..];
      start := IndexOf(buf, SOI, 0);
      end := IndexOf(buf, EOI, start + 2);
    }
    rest := buf;
    ExtractNotFound(buf, start, end);
    assert frames + [] == frames;
    ExtractFramesWellFormed(buffer + chunk);
    ExtractLeavesNoFrame(buffer + chunk);
    ExtractDecomposes(buffer + chunk);
  }

  /** One turn of the loop: the frame cut is the first frame `Extract` finds. */
  lemma CutOne(total: Demuxed, frames: seq<seq<bv8>>, buf: seq<bv8>, start: int, end: int)
    requires start == IndexOf(buf, SOI, 0) && end == IndexOf(buf, EOI, start + 2)
    requires start != -1 && end != -1
    requires total == Demuxed(frames + Extract(buf).frames, Extract(buf).rest)
    ensures total == Demuxed((frames + [buf[start..end + 2]]) + Extract(buf[end + 2..]).frames, Extract(buf[end + 2..]).rest)
  {
    ExtractFound(buf, start, end);
    var later := Extract(buf[end + 2..]).frames;
    assert frames + ([buf[start..end + 2]] + later) == (frames + [buf[start..end + 2]]) + later;
  }

  /** `Extract` when the loop finds no frame. */
  lemma ExtractNotFound(buf: seq<bv8>, start: int, end: int)
    requires start == IndexOf(buf, SOI, 0) && end == IndexOf(buf, EOI, start + 2)
    requires start == -1 || end == -1
    ensures Extract(buf) == Demuxed([], buf)
  {
  }

  /** A frame as the loop cuts it: at least four bytes, from `FF D8` to `FF D9`. */
  predicate IsFrame(f: seq<bv8>) {
    |f| >= 4 && f[0] == MARKER && f[1] == SOI && f[|f| - 2] == MARKER && f[|f| - 1] == EOI
  }

  /** The buffer holds a start marker followed, at least two bytes later, by an end marker. */
  ghost predicate HasCompleteFrame(buf: seq<bv8>) {
    exists i, j :: MarkerAt(buf, i, SOI) && i + 2 <= j && MarkerAt(buf, j, EOI)
  }

  lemma {:induction false} ExtractFramesWellFormed(buf: seq<bv8>)
    ensures forall f :: f in Extract(buf).frames ==> IsFrame(f)
    decreases |buf|
  {
    var start := IndexOf(buf, SOI, 0);
    var end := IndexOf(buf, EOI, start + 2);
    if start != -1 && end != -1 {
      ExtractFound(buf, start, end);
      ExtractFramesWellFormed(buf[end + 2..]);
      FoundIsFrame(buf, start, end);
      var more := Extract(buf[end + 2..]).frames;
      forall f | f in [buf[start..end + 2]] + more ensures IsFrame(f) {
        if f !in more {
          assert f == buf[start..end + 2];
        }
      }
    } else {
      ExtractNotFound(buf, start, end);
    }
  }

  /** The bytes the loop drops before each frame: everything ahead of its start marker. */
  function Gaps(buf: seq<bv8>): seq<seq<bv8>>
    decreases |buf|
  {
    var start := IndexOf(buf, SOI, 0);
    var end := IndexOf(buf, EOI, start + 2);
    if start == -1 || end == -1 then []
    else [buf[..start]] + Gaps(buf[end + 2..])
  }

  /** `gaps[0] + frames[0] + ... + gaps[n-1] + frames[n-1] + rest`. */
  function Interleave(gaps: seq<seq<bv8>>, frames: seq<seq<bv8>>, rest: seq<bv8>): seq<bv8>
    requires |gaps| == |frames|
    decreases |gaps|
  {
    if gaps == [] then rest else gaps[0] + frames[0] + Interleave(gaps[1..], frames[1..], rest)
  }

  /** One turn of the loop as a split of the bytes it consumes: `gap` holds no start
      marker (the search finds the frame's own first), and `frame` runs from that
      marker to the first end marker at least two bytes later. */
  predicate Cut(gap: seq<bv8>, frame: seq<bv8>) {
    && IsFrame(frame)
    && IndexOf(gap + frame, SOI, 0) == |gap|
    && forall p :: 2 <= p < |frame| - 2 ==> !MarkerAt(frame, p, EOI)
  }

  /** What the loop sends is the buffer's own bytes, in order, and what it keeps
      is the untouched tail: the buffer is the dropped gaps interleaved with the
      frames, followed by `rest`, and each frame is the first complete one after
      its gap. */
  lemma {:induction false} ExtractDecomposes(buf: seq<bv8>)
    ensures var d := Extract(buf);
      var gaps := Gaps(buf);
      && |gaps| == |d.frames| && buf == Interleave(gaps, d.frames, d.rest)
      && forall k :: 0 <= k < |gaps| ==> Cut(gaps[k], d.frames[k])
    decreases |buf|
  {
    var start := IndexOf(buf, SOI, 0);
    var end := IndexOf(buf, EOI, start + 2);
    if start != -1 && end != -1 {
      var gap, frame, tail := buf[..start], buf[start..end + 2], buf[end + 2..];
      ExtractFound(buf, start, end);
      GapsFound(buf, start, end);
      ExtractDecomposes(tail);
      CutFound(buf, start, end);
      var more := Extract(tail);
      Split3(buf, start, end + 2);
      InterleaveCons(gap, frame, Gaps(tail), more.frames, more.rest);
      CutsCons(gap, frame, Gaps(tail), more.frames);
    } else {
      ExtractNotFound(buf, start, end);
      GapsNotFound(buf, start, end);
    }
  }

  lemma GapsFound(buf: seq<bv8>, start: int, end: int)
    requires start == IndexOf(buf, SOI, 0) && end == IndexOf(buf, EOI, start + 2)
    requires start != -1 && end != -1
    ensures Gaps(buf) == [buf[..start]] + Gaps(buf[end + 2..])
  {
  }

  lemma GapsNotFound(buf: seq<bv8>, start: int, end: int)
    requires start == IndexOf(buf, SOI, 0) && end == IndexOf(buf, EOI, start + 2)
    requires start == -1 || end == -1
    ensures Gaps(buf) == []
  {
  }

  lemma Split3<T>(s: seq<T>, i: int, j: int)
    requires 0 <= i <= j <= |s|
    ensures s == s[..i] + s[i..j] + s[j..]
  {
  }

  lemma InterleaveCons(gap: seq<bv8>, frame: seq<bv8>, gaps: seq<seq<bv8>>, frames: seq<seq<bv8>>, rest: seq<bv8>)
    requires |gaps| == |frames|
    ensures Interleave([gap] + gaps, [frame] + frames, rest) == gap + frame + Interleave(gaps, frames, rest)
  {
    assert ([gap] + gaps)[1..] == gaps && ([frame] + frames)[1..] == frames;
  }

  lemma CutsCons(gap: seq<bv8>, frame: seq<bv8>, gaps: seq<seq<bv8>>, frames: seq<seq<bv8>>)
    requires |gaps| == |frames| && Cut(gap, frame)
    requires forall k :: 0 <= k < |gaps| ==> Cut(gaps[k], frames[k])
    ensures forall k :: 0 <= k < |gaps| + 1 ==> Cut(([gap] + gaps)[k], ([frame] + frames)[k])
  {
    forall k | 0 <= k < |gaps| + 1 ensures Cut(([gap] + gaps)[k], ([frame] + frames)[k]) {
      if k > 0 {
        assert ([gap] + gaps)[k] == gaps[k - 1] && ([frame] + frames)[k] == frames[k - 1];
      }
    }
  }

  /** The first turn of the loop splits off a gap and a frame as `Cut` says. */
  lemma CutFound(buf: seq<bv8>, start: int, end: int)
    requires start == IndexOf(buf, SOI, 0) && end == IndexOf(buf, EOI, start + 2)
    requires start != -1 && end != -1
    ensures Cut(buf[..start], buf[start..end + 2])
  {
    var gap, frame := buf[..start], buf[start..end + 2];
    FoundIsFrame(buf, start, end);
    CutStartsAtFrame(buf, start, end);
    forall p | 2 <= p < |frame| - 2 ensures !MarkerAt(frame, p, EOI) {
      IndexOfFirst(buf, EOI, start + 2, start + p);
      MarkerInSlice(buf, start, end + 2, p, EOI);
    }
  }

  /** The gap ahead of a found frame holds no start marker. */
  lemma CutStartsAtFrame(buf: seq<bv8>, start: int, end: int)
    requires start == IndexOf(buf, SOI, 0) && end == IndexOf(buf, EOI, start + 2)
    requires start != -1 && end != -1
    ensures IndexOf(buf[..start] + buf[start..end + 2], SOI, 0) == start
  {
    var head := buf[..start] + buf[start..end + 2];
    assert head == buf[0..end + 2];
    forall p | 0 <= p < start ensures !MarkerAt(head, p, SOI) {
      IndexOfFirst(buf, SOI, 0, p);
      MarkerInSlice(buf, 0, end + 2, p, SOI);
    }
    assert head[start] == buf[start] && head[start + 1] == buf[start + 1];
    IndexOfIs(head, SOI, 0, start);
  }

  /** A marker inside a slice is a marker of the whole buffer. */
  lemma MarkerInSlice(buf: seq<bv8>, i: int, j: int, p: int, second: bv8)
    requires 0 <= i <= j <= |buf|
    ensures MarkerAt(buf[i..j], p, second) ==> MarkerAt(buf, i + p, second)
  {
    if MarkerAt(buf[i..j], p, second) {
      assert buf[i..j][p] == buf[i + p] && buf[i..j][p + 1] == buf[i + p + 1];
    }
  }

  /** `indexOf` returns a marker position when no earlier one follows `from`. */
  lemma {:induction false} IndexOfIs(buf: seq<bv8>, second: bv8, from: nat, k: int)
    requires from <= k && MarkerAt(buf, k, second)
    requires forall p :: from <= p < k ==> !MarkerAt(buf, p, second)
    ensures IndexOf(buf, second, from) == k
    decreases k - from
  {
    if from < k {
      IndexOfIs(buf, second, from + 1, k);
    }
  }

  /** The bytes from a start marker to an end marker two or more bytes later form a frame. */
  lemma FoundIsFrame(buf: seq<bv8>, start: int, end: int)
    requires MarkerAt(buf, start, SOI) && start + 2 <= end && MarkerAt(buf, end, EOI)
    ensures IsFrame(buf[start..end + 2])
  {
    var f := buf[start..end + 2];
    assert f[0] == buf[start] && f[1] == buf[start + 1];
    assert f[|f| - 2] == buf[end] && f[|f| - 1] == buf[end + 1];
  }

  /** When the loop stops, no complete frame is left in the buffer. */
  lemma {:induction false} ExtractLeavesNoFrame(buf: seq<bv8>)
    ensures !HasCompleteFrame(Extract(buf).rest)
    decreases |buf|
  {
    var start := IndexOf(buf, SOI, 0);
    var end := IndexOf(buf, EOI, start + 2);
    if start != -1 && end != -1 {
      ExtractFound(buf, start, end);
      ExtractLeavesNoFrame(buf[end + 2..]);
    } else {
      ExtractNotFound(buf, start, end);
      forall i, j | MarkerAt(buf, i, SOI) && i + 2 <= j
        ensures !MarkerAt(buf, j, EOI)
      {
        if start == -1 || i < start {
          IndexOfFirst(buf, SOI, 0, i);
        } else {
          IndexOfFirst(buf, EOI, start + 2, j);
        }
      }
    }
  }

  /** A marker found in a buffer is found at the same place once more bytes are appended. */
  lemma IndexOfAppend(buf: seq<bv8>, more: seq<bv8>, second: bv8, from: nat)
    requires IndexOf(buf, second, from) != -1
    ensures IndexOf(buf + more, second, from) == IndexOf(buf, second, from)
  {
    var k := IndexOf(buf, second, from);
    var k' := IndexOf(buf + more, second, from);
    assert MarkerAt(buf + more, k, second);
    if k' == -1 || k < k' {
      IndexOfFirst(buf + more, second, from, k);
    } else if k' < k {
      IndexOfFirst(buf, second, from, k');
    }
  }

  /** Appending bytes after the point where the loop stopped does not change the
      frames already cut: demuxing `buf + more` gives the frames of `buf` followed by
      the frames of its leftover bytes followed by `more`. */
  lemma {:induction false} ExtractAppend(buf: seq<bv8>, more: seq<bv8>)
    ensures Extract(buf + more) ==
      Demuxed(Extract(buf).frames + Extract(Extract(buf).rest + more).frames, Extract(Extract(buf).rest + more).rest)
    decreases |buf|
  {
    var start := IndexOf(buf, SOI, 0);
    var end := IndexOf(buf, EOI, start + 2);
    if start != -1 && end != -1 {
      var tail := buf[end + 2..];
      ExtractAppend(tail, more);
      ExtractAppendFound(buf, more, start, end);
    } else {
      ExtractNotFound(buf, start, end);
      assert [] + Extract(buf + more).frames == Extract(buf + more).frames;
    }
  }

  /** The inductive step of `ExtractAppend`: a frame found in `buf` is found, at
      the same place, in `buf + more`. */
  lemma ExtractAppendFound(buf: seq<bv8>, more: seq<bv8>, start: int, end: int)
    requires start == IndexOf(buf, SOI, 0) && end == IndexOf(buf, EOI, start + 2)
    requires start != -1 && end != -1
    requires var part := Extract(buf[end + 2..]);
      Extract(buf[end + 2..] + more) ==
      Demuxed(part.frames + Extract(part.rest + more).frames, Extract(part.rest + more).rest)
    ensures Extract(buf + more) ==
      Demuxed(Extract(buf).frames + Extract(Extract(buf).rest + more).frames, Extract(Extract(buf).rest + more).rest)
  {
    FoundStaysFound(buf, more, start, end);
    ExtractFound(buf, start, end);
    var tail := buf[end + 2..];
    var part := Extract(tail);
    Glue(buf[start..end + 2], Extract(tail + more), part, Extract(part.rest + more), Extract(buf + more), Extract(buf));
  }

  /** Frames cut in two stages, put back together. */
  lemma Glue(frame: seq<bv8>, whole: Demuxed, part: Demuxed, after: Demuxed, top: Demuxed, first: Demuxed)
    requires whole == Demuxed(part.frames + after.frames, after.rest)
    requires top == Demuxed([frame] + whole.frames, whole.rest)
    requires first == Demuxed([frame] + part.frames, part.rest)
    ensures top == Demuxed(first.frames + after.frames, after.rest)
  {
    assert [frame] + (part.frames + after.frames) == ([frame] + part.frames) + after.frames;
  }

  lemma FoundStaysFound(buf: seq<bv8>, more: seq<bv8>, start: int, end: int)
    requires start == IndexOf(buf, SOI, 0) && end == IndexOf(buf, EOI, start + 2)
    requires start != -1 && end != -1
    ensures Extract(buf + more) ==
      Demuxed([buf[start..end + 2]] + Extract(buf[end + 2..] + more).frames, Extract(buf[end + 2..] + more).rest)
  {
    var whole := buf + more;
    IndexOfAppend(buf, more, SOI, 0);
    IndexOfAppend(buf, more, EOI, start + 2);
    ExtractFound(whole, start, end);
    SliceOfAppend(buf, more, start, end + 2);
  }

  lemma SliceOfAppend<T>(a: seq<T>, b: seq<T>, i: int, j: int)
    requires 0 <= i <= j <= |a|
    ensures (a + b)[i..j] == a[i..j] && (a + b)[j..] == a[j..] + b
  {
  }

  /** `Extract` when the loop finds a frame from `start` to `end + 2`. */
  lemma ExtractFound(buf: seq<bv8>, start: int, end: int)
    requires start == IndexOf(buf, SOI, 0) && end == IndexOf(buf, EOI, start + 2)
    requires start != -1 && end != -1
    ensures Extract(buf) == Demuxed([buf[start..end + 2]] + Extract(buf[end + 2..]).frames, Extract(buf[end + 2..]).rest)
  {
  }

  function Concat(chunks: seq<seq<bv8>>): seq<bv8> {
    if chunks == [] then [] else chunks[0] + Concat(chunks[1..])
  }

  /** The stream fed chunk by chunk, starting from `buffer`. */
  function Feed(buffer: seq<bv8>, chunks: seq<seq<bv8>>): Demuxed
    decreases |chunks|
  {
    if chunks == [] then Demuxed([], buffer)
    else
      var first := Extract(buffer + chunks[0]);
      var later := Feed(first.rest, chunks[1..]);
      Demuxed(first.frames + later.frames, later.rest)
  }

  /** The frames sent, and the bytes kept, do not depend on where the chunk
      boundaries fall: starting from a buffer with no complete frame (the empty
      buffer the capture starts with, or what an earlier chunk left), feeding the
      chunks one by one is demuxing their concatenation. */
  lemma {:induction false} ChunkBoundariesIrrelevant(buffer: seq<bv8>, chunks: seq<seq<bv8>>)
    requires !HasCompleteFrame(buffer)
    ensures Feed(buffer, chunks) == Extract(buffer + Concat(chunks))
    decreases |chunks|
  {
    if chunks == [] {
      assert buffer + Concat(chunks) == buffer;
      ExtractIdle(buffer);
    } else {
      var first := Extract(buffer + chunks[0]);
      ExtractLeavesNoFrame(buffer + chunks[0]);
      ChunkBoundariesIrrelevant(first.rest, chunks[1..]);
      FeedStep(buffer, chunks);
    }
  }

  /** The inductive step of `ChunkBoundariesIrrelevant`. */
  lemma FeedStep(buffer: seq<bv8>, chunks: seq<seq<bv8>>)
    requires chunks != []
    requires Feed(Extract(buffer + chunks[0]).rest, chunks[1..]) ==
      Extract(Extract(buffer + chunks[0]).rest + Concat(chunks[1..]))
    ensures Feed(buffer, chunks) == Extract(buffer + Concat(chunks))
  {
    FeedOnce(buffer, chunks);
    ConcatCons(buffer, chunks);
    ExtractAppend(buffer + chunks[0], Concat(chunks[1..]));
  }

  /** Feeding a first chunk, then the others. */
  lemma FeedOnce(buffer: seq<bv8>, chunks: seq<seq<bv8>>)
    requires chunks != []
    ensures var first := Extract(buffer + chunks[0]);
      Feed(buffer, chunks) == Demuxed(first.frames + Feed(first.rest, chunks[1..]).frames, Feed(first.rest, chunks[1..]).rest)
  {
  }

  lemma ConcatCons(buffer: seq<bv8>, chunks: seq<seq<bv8>>)
    requires chunks != []
    ensures buffer + Concat(chunks) == (buffer + chunks[0]) + Concat(chunks[1..])
  {
  }

  /** The loop cuts a frame only out of a buffer that holds a complete one. */
  lemma ExtractNeedsFrame(buf: seq<bv8>)
    ensures Extract(buf).frames != [] ==> HasCompleteFrame(buf)
  {
    var start := IndexOf(buf, SOI, 0);
    var end := IndexOf(buf, EOI, start + 2);
    if start != -1 && end != -1 {
      assert MarkerAt(buf, start, SOI) && start + 2 <= end && MarkerAt(buf, end, EOI);
    }
  }

  /** A buffer with no complete frame is left as it is. */
  lemma ExtractIdle(buf: seq<bv8>)
    requires !HasCompleteFrame(buf)
    ensures Extract(buf) == Demuxed([], buf)
  {
    ExtractNeedsFrame(buf);
  }
}
