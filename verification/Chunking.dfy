/** Overlapping windows over the normalized text of each block. */
module Chunking {
  import opened Numbers
  import opened Wrappers
  import opened TextTools
  import opened MarkdownParser

  datatype Chunk = Chunk(ordinal: nat, section: Option<string>, page: Option<nat>, content: string, tokenCount: nat)

  datatype ChunkError = InvalidSizeOrOverlap

  const FULL_STOP := '。'

  predicate ValidSizes(maxChars: int, overlapChars: int) {
    maxChars >= 100 && 0 <= overlapChars < maxChars
  }

  /** The last place of a character in s[lo..hi], or -1. */
  function RFind(s: string, c: char, lo: int, hi: int): (p: int)
    requires 0 <= lo && hi <= |s|
    ensures p == -1 || (lo <= p < hi && s[p] == c)
    ensures forall q :: Max(lo, p + 1) <= q < hi ==> s[q] != c
    decreases hi - lo
  {
    if hi <= lo then -1 else if s[hi - 1] == c then hi - 1 else RFind(s, c, lo, hi - 1)
  }

  /** Where the window starting at `start` ends: after the last full stop of its second half, if any. */
  function StopAt(content: string, start: nat, maxChars: int): (stop: nat)
    requires start < |content| && maxChars >= 100
    ensures start < stop <= Min(start + maxChars, |content|)
    ensures stop < |content| ==> stop >= start + maxChars / 2 + 1
  {
    var stop := Min(start + maxChars, |content|);
    if stop < |content| then
      var boundary := RFind(content, FULL_STOP, start + maxChars / 2, stop);
      if boundary > start then boundary + 1 else stop
    else stop
  }

  datatype Window = Window(start: nat, stop: nat)

  function WindowsFrom(content: string, start: nat, maxChars: int, overlapChars: int): seq<Window>
    requires ValidSizes(maxChars, overlapChars)
    decreases |content| - start
  {
    if start >= |content| then [] else
    var stop := StopAt(content, start, maxChars);
    [Window(start, stop)]
    + if stop >= |content| then [] else WindowsFrom(content, Max(stop - overlapChars, start + 1), maxChars, overlapChars)
  }

  datatype Piece = Piece(section: Option<string>, page: Option<nat>, content: string)

  function Cut(b: Block, content: string, w: Window): Piece
    requires w.start <= w.stop <= |content|
  {
    Piece(b.section, b.page, Strip(content[w.start..w.stop]))
  }

  function BlockPieces(b: Block, maxChars: int, overlapChars: int): seq<Piece>
    requires ValidSizes(maxChars, overlapChars)
  {
    var content := Normalize(b.text);
    var ws := WindowsFrom(content, 0, maxChars, overlapChars);
    WindowsFit(content, 0, maxChars, overlapChars);
    seq(|ws|, i requires 0 <= i < |ws| => Cut(b, content, ws[i]))
  }

  function Pieces(blocks: seq<Block>, maxChars: int, overlapChars: int): seq<Piece>
    requires ValidSizes(maxChars, overlapChars)
  {
    if blocks == [] then []
    else Pieces(blocks[..|blocks| - 1], maxChars, overlapChars)
         + BlockPieces(blocks[|blocks| - 1], maxChars, overlapChars)
  }

  function Numbered(pieces: seq<Piece>): seq<Chunk> {
    seq(|pieces|, i requires 0 <= i < |pieces| =>
      Chunk(i, pieces[i].section, pieces[i].page, pieces[i].content, Max(1, |pieces[i].content| / 2)))
  }

  // ----- What the windows of a text are like -----

  /** A window that starts later does not end earlier. */
  lemma StopsAreMonotone(content: string, start: nat, next: nat, maxChars: int)
    requires start <= next < |content| && maxChars >= 100
    ensures StopAt(content, start, maxChars) <= StopAt(content, next, maxChars)
  {
    var stop := StopAt(content, start, maxChars);
    if stop < |content| && stop > next + maxChars / 2 {
      var limit := Min(next + maxChars, |content|);
      var p := RFind(content, FULL_STOP, next + maxChars / 2, limit);
      if content[stop - 1] == FULL_STOP {
        assert limit < |content| ==> p >= stop - 1;
      }
    }
  }

  /** How a window relates to the one before it. */
  predicate Follows(w: Window, w': Window, maxChars: int, overlapChars: int) {
    && w.start < w'.start <= w.stop <= w'.stop
    && w.stop - w'.start == Min(overlapChars, w.stop - w.start - 1)
    && (overlapChars <= maxChars / 2 ==> w.stop < w'.stop)
  }

  /** A window of the text from `start` on, within the size. */
  predicate Within(w: Window, content: string, start: nat, maxChars: int) {
    start <= w.start < w.stop <= |content| && w.stop - w.start <= maxChars
  }

  /** Windows within the text and the size that move to the right without a gap. */
  predicate Fit(ws: seq<Window>, content: string, start: nat, maxChars: int, overlapChars: int) {
    && (forall i :: 0 <= i < |ws| ==> Within(ws[i], content, start, maxChars))
    && (forall i :: 0 < i < |ws| ==> Follows(ws[i - 1], ws[i], maxChars, overlapChars))
  }

  lemma OneMoreFits(w: Window, rest: seq<Window>, content: string, start: nat, next: nat, maxChars: int, overlapChars: int)
    requires rest != [] && start <= next && Fit(rest, content, next, maxChars, overlapChars)
    requires Within(w, content, start, maxChars) && Follows(w, rest[0], maxChars, overlapChars)
    ensures Fit([w] + rest, content, start, maxChars, overlapChars)
  {
    hide Follows;
    var ws := [w] + rest;
    forall i | 0 <= i < |ws| ensures Within(ws[i], content, start, maxChars) {
      if i > 0 { assert Within(rest[i - 1], content, next, maxChars); }
    }
    forall i | 0 < i < |ws| ensures Follows(ws[i - 1], ws[i], maxChars, overlapChars) {
      if i > 1 { assert Follows(rest[i - 2], rest[i - 1], maxChars, overlapChars); }
    }
  }

  lemma NextFollows(content: string, start: nat, maxChars: int, overlapChars: int)
    requires ValidSizes(maxChars, overlapChars) && start < |content| && StopAt(content, start, maxChars) < |content|
    ensures var stop := StopAt(content, start, maxChars);
            var next := Max(stop - overlapChars, start + 1);
            start < next < |content|
            && Follows(Window(start, stop), Window(next, StopAt(content, next, maxChars)), maxChars, overlapChars)
  {
    var next := Max(StopAt(content, start, maxChars) - overlapChars, start + 1);
    StopsAreMonotone(content, start, next, maxChars);
    hide StopAt;
  }

  lemma Unfold(content: string, start: nat, maxChars: int, overlapChars: int)
    requires ValidSizes(maxChars, overlapChars)
    ensures var ws := WindowsFrom(content, start, maxChars, overlapChars);
            if start >= |content| then ws == [] else
            var stop := StopAt(content, start, maxChars);
            && ws != [] && ws[0] == Window(start, stop)
            && (stop >= |content| ==> ws == [Window(start, stop)])
            && (stop < |content| ==>
                  var rest := WindowsFrom(content, Max(stop - overlapChars, start + 1), maxChars, overlapChars);
                  ws == [Window(start, stop)] + rest && ws[1..] == rest)
  {
    hide StopAt;
  }

  /** The first window starts where asked and the last ends with the text; windows move to the right without
      a gap, stay within the size, and share at most the overlap. With an overlap of at most half the size
      no window lies inside its predecessor. */
  lemma {:induction false} WindowsFit(content: string, start: nat, maxChars: int, overlapChars: int)
    requires ValidSizes(maxChars, overlapChars)
    ensures var ws := WindowsFrom(content, start, maxChars, overlapChars);
            && (start < |content| <==> ws != [])
            && (ws != [] ==> ws[0] == Window(start, StopAt(content, start, maxChars)) && ws[|ws| - 1].stop == |content|)
            && Fit(ws, content, start, maxChars, overlapChars)
    decreases |content| - start
  {
    hide StopAt, Follows, Fit, WindowsFrom;
    Unfold(content, start, maxChars, overlapChars);
    if start < |content| {
      var stop := StopAt(content, start, maxChars);
      if stop < |content| {
        var next := Max(stop - overlapChars, start + 1);
        NextFollows(content, start, maxChars, overlapChars);
        WindowsFit(content, next, maxChars, overlapChars);
        OneMoreFits(Window(start, stop), WindowsFrom(content, next, maxChars, overlapChars), content, start, next,
                    maxChars, overlapChars);
      } else {
        OneWindowFits(Window(start, stop), content, start, maxChars, overlapChars);
      }
    } else {
      NoWindowsFit(content, start, maxChars, overlapChars);
    }
  }

  lemma NoWindowsFit(content: string, start: nat, maxChars: int, overlapChars: int)
    ensures Fit([], content, start, maxChars, overlapChars)
  {
  }

  lemma OneWindowFits(w: Window, content: string, start: nat, maxChars: int, overlapChars: int)
    requires Within(w, content, start, maxChars)
    ensures Fit([w], content, start, maxChars, overlapChars)
  {
  }

  /** The end of a window is the end of the text, or right after the last full stop of its second half, or its
      full size when there is none. */
  lemma StopIsLastFullStop(content: string, start: nat, maxChars: int)
    requires start < |content| && maxChars >= 100
    ensures var stop := StopAt(content, start, maxChars);
            && (start + maxChars >= |content| ==> stop == |content|)
            && (start + maxChars < |content| ==>
                  && (forall q :: stop <= q < start + maxChars ==> content[q] != FULL_STOP)
                  && (content[stop - 1] == FULL_STOP
                      || (stop == start + maxChars
                          && forall q :: start + maxChars / 2 <= q < stop ==> content[q] != FULL_STOP)))
  {
  }

  /** In every normalized text each window ends later than the one before it. */
  ghost predicate EachEndsLater(maxChars: int, overlapChars: int)
    requires ValidSizes(maxChars, overlapChars)
  {
    forall content: string, i: int | Tidy(content) && 0 < i < |WindowsFrom(content, 0, maxChars, overlapChars)| ::
      WindowsFrom(content, 0, maxChars, overlapChars)[i - 1].stop < WindowsFrom(content, 0, maxChars, overlapChars)[i].stop
  }

  /** Twice the window size in letters, with one full stop at the end of the first half. */
  function Crowded(maxChars: nat): string {
    seq(2 * maxChars, i => if i == maxChars - 1 then FULL_STOP else 'x')
  }

  lemma CrowdedText(maxChars: nat)
    ensures |Crowded(maxChars)| == 2 * maxChars && Tidy(Crowded(maxChars))
    ensures forall i :: 0 <= i < 2 * maxChars ==> (Crowded(maxChars)[i] == FULL_STOP <==> i == maxChars - 1)
  {
  }

  lemma CrowdedStop(maxChars: nat, start: nat)
    requires maxChars >= 100 && start + maxChars / 2 <= maxChars - 1
    ensures start < |Crowded(maxChars)| && StopAt(Crowded(maxChars), start, maxChars) == maxChars
  {
    hide StopAt, Crowded, Tidy;
    CrowdedText(maxChars);
    assert Crowded(maxChars)[maxChars - 1] == FULL_STOP;
    StopIsLastFullStop(Crowded(maxChars), start, maxChars);
  }

  /** The first two windows of that text end at its full stop when the overlap is above half the size. */
  lemma CrowdedWindows(maxChars: int, overlapChars: int)
    requires ValidSizes(maxChars, overlapChars) && overlapChars > maxChars / 2
    ensures Tidy(Crowded(maxChars))
    ensures var ws := WindowsFrom(Crowded(maxChars), 0, maxChars, overlapChars);
            |ws| > 1 && ws[0].stop == ws[1].stop == maxChars
  {
    hide WindowsFrom, StopAt, Crowded, IsSpace;
    var content := Crowded(maxChars);
    var next := Max(maxChars - overlapChars, 1);
    CrowdedText(maxChars);
    CrowdedStop(maxChars, 0);
    CrowdedStop(maxChars, next);
    Unfold(content, 0, maxChars, overlapChars);
    Unfold(content, next, maxChars, overlapChars);
    var ws := WindowsFrom(content, 0, maxChars, overlapChars);
    assert ws[1] == ws[1..][0];
  }

  /** Every chunk ends later than the one before it if and only if the overlap is at most half the size. */
  lemma WindowsProgressIff(maxChars: int, overlapChars: int)
    requires ValidSizes(maxChars, overlapChars)
    ensures EachEndsLater(maxChars, overlapChars) <==> overlapChars <= maxChars / 2
  {
    hide WindowsFrom, Tidy, Within;
    if overlapChars <= maxChars / 2 {
      forall content: string, i: int | Tidy(content) && 0 < i < |WindowsFrom(content, 0, maxChars, overlapChars)|
        ensures WindowsFrom(content, 0, maxChars, overlapChars)[i - 1].stop
                < WindowsFrom(content, 0, maxChars, overlapChars)[i].stop
      {
        WindowsFit(content, 0, maxChars, overlapChars);
        var ws := WindowsFrom(content, 0, maxChars, overlapChars);
        assert Follows(ws[i - 1], ws[i], maxChars, overlapChars);
      }
    } else {
      CrowdedWindows(maxChars, overlapChars);
      assert !(WindowsFrom(Crowded(maxChars), 0, maxChars, overlapChars)[1 - 1].stop
               < WindowsFrom(Crowded(maxChars), 0, maxChars, overlapChars)[1].stop);
    }
  }

  /** The least progress from one window to the next. */
  function Stride(maxChars: int, overlapChars: int): int { Max(1, maxChars / 2 + 1 - overlapChars) }

  lemma StrideIsPositive(maxChars: int, overlapChars: int)
    ensures Stride(maxChars, overlapChars) >= 1
  {
  }

  function CeilDiv(a: nat, b: int): nat
    requires b >= 1
  {
    (a + b - 1) / b
  }

  /** One more window costs one more stride. */
  lemma OneMoreStride(n: int, d: int, room: int, step: int)
    requires (n - 1) * d < room - step && step >= d
    ensures n * d < room
  {
    assert n * d == (n - 1) * d + d;
  }

  lemma {:induction false} StridesFit(content: string, start: nat, maxChars: int, overlapChars: int)
    requires ValidSizes(maxChars, overlapChars) && start < |content|
    ensures (|WindowsFrom(content, start, maxChars, overlapChars)| - 1) * Stride(maxChars, overlapChars) < |content| - start
    decreases |content| - start
  {
    hide StopAt, WindowsFrom;
    Unfold(content, start, maxChars, overlapChars);
    var stop := StopAt(content, start, maxChars);
    if stop < |content| {
      var next := Max(stop - overlapChars, start + 1);
      StridesFit(content, next, maxChars, overlapChars);
      OneMoreStride(|WindowsFrom(content, next, maxChars, overlapChars)|, Stride(maxChars, overlapChars),
                    |content| - start, next - start);
    }
  }

  lemma MulMonotone(a: int, b: int, d: nat)
    requires a <= b
    ensures a * d <= b * d
  {
    assert (b - a) * d >= 0;
  }

  lemma QuotientBound(n: nat, d: int, length: nat)
    requires d >= 1 && n >= 1 && (n - 1) * d < length
    ensures n <= CeilDiv(length, d)
  {
    var a := length + d - 1;
    var q := a / d;
    assert a < (q + 1) * d;
    assert n * d == (n - 1) * d + d <= a;
    if q + 1 <= n { MulMonotone(q + 1, n, d); }
  }

  /** A block of length L yields at most ceil(L / stride) chunks, with stride max_chars / 2 + 1 - overlap_chars
      or 1 when that is less. */
  lemma ChunkCountIsBounded(b: Block, maxChars: int, overlapChars: int)
    requires ValidSizes(maxChars, overlapChars)
    ensures |BlockPieces(b, maxChars, overlapChars)| <= CeilDiv(|Normalize(b.text)|, Stride(maxChars, overlapChars))
  {
    hide WindowsFrom, Normalize, StopAt, Fit, CeilDiv, Stride;
    var content := Normalize(b.text);
    WindowsFit(content, 0, maxChars, overlapChars);
    if content != "" {
      StridesFit(content, 0, maxChars, overlapChars);
      StrideIsPositive(maxChars, overlapChars);
      QuotientBound(|WindowsFrom(content, 0, maxChars, overlapChars)|, Stride(maxChars, overlapChars), |content|);
    }
  }

  /** In normalized text every window says something. */
  lemma WindowsAreNotBlank(content: string, maxChars: int, overlapChars: int, i: nat)
    requires ValidSizes(maxChars, overlapChars) && Tidy(content)
    requires i < |WindowsFrom(content, 0, maxChars, overlapChars)|
    ensures var w := WindowsFrom(content, 0, maxChars, overlapChars)[i];
            w.start <= w.stop <= |content| && Strip(content[w.start..w.stop]) != ""
  {
    WindowsFit(content, 0, maxChars, overlapChars);
    var w := WindowsFrom(content, 0, maxChars, overlapChars)[i];
    WindowStops(content, 0, maxChars, overlapChars, i);
    var s := content[w.start..w.stop];
    StripKeeps(s);
    var k := if IsSpace(content[w.start]) then 1 else 0;
    assert !IsSpace(s[k]);
  }

  lemma {:induction false} WindowStops(content: string, start: nat, maxChars: int, overlapChars: int, i: nat)
    requires ValidSizes(maxChars, overlapChars)
    requires i < |WindowsFrom(content, start, maxChars, overlapChars)|
    ensures var w := WindowsFrom(content, start, maxChars, overlapChars)[i];
            w.start < |content| && w.stop == StopAt(content, w.start, maxChars)
    decreases i
  {
    hide StopAt, WindowsFrom;
    Unfold(content, start, maxChars, overlapChars);
    if i > 0 {
      var stop := StopAt(content, start, maxChars);
      WindowStops(content, Max(stop - overlapChars, start + 1), maxChars, overlapChars, i - 1);
    }
  }

  // ----- The loop -----

  lemma NumberedAppend(pieces: seq<Piece>, p: Piece)
    ensures Numbered(pieces + [p])
            == Numbered(pieces) + [Chunk(|pieces|, p.section, p.page, p.content, Max(1, |p.content| / 2))]
  {
  }

  /** The windows of one block, appended to the drafts of the blocks before it. */
  method ChunkBlock(before: seq<Chunk>, block: Block, maxChars: int, overlapChars: int, ghost pieces: seq<Piece>)
    returns (drafts: seq<Chunk>)
    requires ValidSizes(maxChars, overlapChars) && before == Numbered(pieces)
    ensures drafts == Numbered(pieces + BlockPieces(block, maxChars, overlapChars))
  {
    hide Strip, Normalize, Numbered, Tidy, RFind, StopAt, WindowsFrom;
    drafts := before;
    var content := Normalize(block.text);
    NormalizeKeeps(block.text);
    WindowsFit(content, 0, maxChars, overlapChars);
    ghost var ws := WindowsFrom(content, 0, maxChars, overlapChars);
    ghost var mine := BlockPieces(block, maxChars, overlapChars);
    ghost var k := 0;
    var start := 0;
    assert pieces + mine[..0] == pieces;
    while start < |content|
      invariant 0 <= start && k <= |ws| == |mine|
      invariant ws[k..] == WindowsFrom(content, start, maxChars, overlapChars)
      invariant drafts == Numbered(pieces + mine[..k])
      decreases |content| - start
    {
      var stop := StopOf(content, start, maxChars);
      Unfold(content, start, maxChars, overlapChars);
      assert ws[k..][0] == ws[k] == Window(start, stop);
      WindowsAreNotBlank(content, maxChars, overlapChars, k);
      var piece := Strip(content[start..stop]);
      if piece != "" {
        drafts := drafts + [Chunk(|drafts|, block.section, block.page, piece, Max(1, |piece| / 2))];
      }
      NumberedAppend(pieces + mine[..k], mine[k]);
      NumberedLength(pieces + mine[..k]);
      assert pieces + mine[..k + 1] == pieces + mine[..k] + [mine[k]];
      k := k + 1;
      assert ws[k..] == ws[k - 1..][1..];
      if stop >= |content| { break; }
      start := Max(stop - overlapChars, start + 1);
    }
    Unfold(content, start, maxChars, overlapChars);
    assert k == |mine|;
    assert mine[..k] == mine;
  }

  lemma NumberedLength(pieces: seq<Piece>)
    ensures |Numbered(pieces)| == |pieces|
  {
  }

  /** The boundary search of one window. */
  method StopOf(content: string, start: nat, maxChars: int) returns (stop: nat)
    requires start < |content| && maxChars >= 100
    ensures stop == StopAt(content, start, maxChars)
  {
    stop := Min(start + maxChars, |content|);
    if stop < |content| {
      var boundary := RFind(content, FULL_STOP, start + maxChars / 2, stop);
      if boundary > start { stop := boundary + 1; }
    }
  }

  method ChunkBlocks(blocks: seq<Block>, maxChars: int, overlapChars: int) returns (r: Result<seq<Chunk>, ChunkError>)
    ensures !ValidSizes(maxChars, overlapChars) ==> r == Failure(InvalidSizeOrOverlap)
    ensures ValidSizes(maxChars, overlapChars) ==> r == Success(Numbered(Pieces(blocks, maxChars, overlapChars)))
  {
    hide Numbered, BlockPieces;
    if maxChars < 100 || !(0 <= overlapChars < maxChars) { return Failure(InvalidSizeOrOverlap); }
    var drafts: seq<Chunk> := [];
    NumberedLength([]);
    for n := 0 to |blocks|
      invariant drafts == Numbered(Pieces(blocks[..n], maxChars, overlapChars))
    {
      drafts := ChunkBlock(drafts, blocks[n], maxChars, overlapChars, Pieces(blocks[..n], maxChars, overlapChars));
      assert blocks[..n + 1][..n] == blocks[..n];
    }
    assert blocks[..|blocks|] == blocks;
    return Success(drafts);
  }

  // ----- Nothing is lost -----

  /** Where window i begins to add something: the end of the window before it. */
  function FreshFrom(ws: seq<Window>, i: nat): nat
    requires i <= |ws|
  {
    if i == 0 then 0 else ws[i - 1].stop
  }

  /** What window i adds to the windows before it. */
  function Fresh(content: string, ws: seq<Window>, i: nat): string
    requires i < |ws| && FreshFrom(ws, i) <= ws[i].stop <= |content|
  {
    content[FreshFrom(ws, i)..ws[i].stop]
  }

  predicate InOrder(content: string, ws: seq<Window>) {
    && (forall i :: 0 <= i < |ws| ==> ws[i].start <= ws[i].stop <= |content|)
    && (forall i :: 0 < i < |ws| ==> ws[i].start <= ws[i - 1].stop <= ws[i].stop)
    && (ws != [] ==> ws[0].start == 0)
  }

  /** Whether a gap comes before position i of a text. */
  function GapAt(content: string, i: nat): bool
    requires i <= |content|
  {
    GapAfter(content[..i], true)
  }

  /** What window i adds, spelled out. */
  function Spoken(content: string, ws: seq<Window>, i: nat): seq<Mark>
    requires i < |ws| && FreshFrom(ws, i) <= ws[i].stop <= |content|
  {
    Spelled(Fresh(content, ws, i), GapAt(content, FreshFrom(ws, i)))
  }

  /** What the first n windows add, overlaps removed. */
  function NewText(content: string, ws: seq<Window>, n: nat): seq<Mark>
    requires InOrder(content, ws) && n <= |ws|
  {
    if n == 0 then [] else NewText(content, ws, n - 1) + Spoken(content, ws, n - 1)
  }

  lemma {:induction false} NewTextIsPrefix(content: string, ws: seq<Window>, n: nat)
    requires InOrder(content, ws) && n <= |ws|
    ensures NewText(content, ws, n) == Spelled(content[..FreshFrom(ws, n)], true)
  {
    hide Spelled, GapAfter;
    if n == 0 {
      NothingSpelled();
    } else {
      NewTextIsPrefix(content, ws, n - 1);
      var from := FreshFrom(ws, n - 1);
      SpelledConcat(content[..from], content[from..ws[n - 1].stop], true);
      assert content[..from] + content[from..ws[n - 1].stop] == content[..ws[n - 1].stop];
    }
  }

  /** A chunk of the block: its tags, and its share of the overlap up to `from` followed by what it adds after
      that, on its own behind the gap at its start. */
  predicate Holds(p: Piece, b: Block, content: string, w: Window, from: nat)
    requires w.start <= from <= w.stop <= |content|
  {
    && p.section == b.section && p.page == b.page && p.content != ""
    && Spelled(p.content, StartGap(content, w))
       == Spelled(content[w.start..from], GapAt(content, w.start)) + Spelled(content[from..w.stop], GapAt(content, from))
  }

  /** Whether a gap comes before the first character of a window that is not whitespace. */
  function StartGap(content: string, w: Window): bool
    requires w.start <= w.stop <= |content|
  {
    GapAt(content, w.start) || (w.start < w.stop && IsSpace(content[w.start]))
  }

  lemma GapMoves(content: string, i: nat, j: nat)
    requires i <= j <= |content|
    ensures GapAfter(content[i..j], GapAt(content, i)) == GapAt(content, j)
  {
    if i < j { assert content[i..j][j - i - 1] == content[..j][j - 1]; }
  }

  lemma CutHolds(b: Block, content: string, w: Window, from: nat)
    requires w.start <= from <= w.stop <= |content| && Strip(content[w.start..w.stop]) != ""
    ensures Holds(Cut(b, content, w), b, content, w, from)
  {
    hide Spelled, GapAfter, Strip, IsSpace;
    var s := content[w.start..w.stop];
    SpelledStrip(s, GapAt(content, w.start));
    SpelledConcat(content[w.start..from], content[from..w.stop], GapAt(content, w.start));
    GapMoves(content, w.start, from);
    assert content[w.start..from] + content[from..w.stop] == s;
    assert s != "" ==> s[0] == content[w.start];
  }

  lemma {:induction false} StripLeftTidy(s: string, content: string, start: nat)
    requires Tidy(content) && start + |s| <= |content| && s == content[start..start + |s|]
    ensures StripLeft(s) == s || (s != "" && IsSpace(s[0]) && StripLeft(s) == s[1..])
  {
    if s != "" && IsSpace(s[0]) {
      assert content[start] == s[0];
      if |s| > 1 { assert s[1] == content[start + 1]; }
      assert StripLeft(s[1..]) == s[1..];
    }
  }

  lemma {:induction false} StripRightTidy(s: string, content: string, start: nat)
    requires Tidy(content) && start + |s| <= |content| && s == content[start..start + |s|]
    ensures StripRight(s) == s || (s != "" && IsSpace(s[|s| - 1]) && StripRight(s) == s[..|s| - 1])
  {
    if s != "" && IsSpace(s[|s| - 1]) {
      var t := s[..|s| - 1];
      if t != "" {
        assert t[|t| - 1] == content[start + |t| - 1] && s[|t|] == content[start + |t|];
      }
      assert StripRight(t) == t;
    }
  }

  /** A piece of normalized text is normalized itself: single spaces, none at the ends. */
  lemma CutIsTidy(content: string, w: Window)
    requires Tidy(content) && w.start <= w.stop <= |content|
    ensures Tidy(Strip(content[w.start..w.stop]))
  {
    var s := content[w.start..w.stop];
    StripLeftTidy(s, content, w.start);
    var t := StripLeft(s);
    var at := if t == s then w.start else w.start + 1;
    assert t == content[at..at + |t|];
    StripRightTidy(t, content, at);
    var r := StripRight(t);
    assert r == content[at..at + |r|];
    hide StripLeft, StripRight;
    TrimmedIsTidy(content, at, r);
  }

  lemma TrimmedIsTidy(content: string, at: nat, r: string)
    requires Tidy(content) && at + |r| <= |content| && r == content[at..at + |r|]
    requires r != "" ==> !IsSpace(r[0]) && !IsSpace(r[|r| - 1])
    ensures Tidy(r)
  {
    forall i | 0 <= i < |r| && IsSpace(r[i]) ensures r[i] == ' ' && i + 1 < |r| && !IsSpace(r[i + 1]) {
      assert r[i] == content[at + i];
      if i + 1 < |r| { assert r[i + 1] == content[at + i + 1]; }
    }
  }

  lemma WindowsInOrder(content: string, maxChars: int, overlapChars: int)
    requires ValidSizes(maxChars, overlapChars)
    ensures InOrder(content, WindowsFrom(content, 0, maxChars, overlapChars))
  {
    hide WindowsFrom, StopAt;
    var ws := WindowsFrom(content, 0, maxChars, overlapChars);
    WindowsFit(content, 0, maxChars, overlapChars);
    forall i | 0 < i < |ws| ensures ws[i].start <= ws[i - 1].stop <= ws[i].stop {
      assert Follows(ws[i - 1], ws[i], maxChars, overlapChars);
    }
  }

  lemma WindowsCover(content: string, maxChars: int, overlapChars: int)
    requires ValidSizes(maxChars, overlapChars)
    ensures var ws := WindowsFrom(content, 0, maxChars, overlapChars);
            InOrder(content, ws) && NewText(content, ws, |ws|) == Spelled(content, true)
  {
    hide WindowsFrom, StopAt, Spelled;
    var ws := WindowsFrom(content, 0, maxChars, overlapChars);
    WindowsInOrder(content, maxChars, overlapChars);
    WindowsFit(content, 0, maxChars, overlapChars);
    NewTextIsPrefix(content, ws, |ws|);
    assert content[..|content|] == content;
  }

  lemma PiecesAreCuts(b: Block, maxChars: int, overlapChars: int, i: nat)
    requires ValidSizes(maxChars, overlapChars)
    ensures var content := Normalize(b.text);
            var ws := WindowsFrom(content, 0, maxChars, overlapChars);
            var pieces := BlockPieces(b, maxChars, overlapChars);
            && |pieces| == |ws|
            && (i < |ws| ==> ws[i].start <= ws[i].stop <= |content| && pieces[i] == Cut(b, content, ws[i]))
  {
    hide WindowsFrom, StopAt, Cut, Normalize;
    WindowsFit(Normalize(b.text), 0, maxChars, overlapChars);
  }

  /** Chunk i of a block carries the block's tags, is normalized, and is its share of the overlap followed by what
      it adds. */
  lemma EachChunkHolds(b: Block, maxChars: int, overlapChars: int, i: nat)
    requires ValidSizes(maxChars, overlapChars) && i < |BlockPieces(b, maxChars, overlapChars)|
    ensures var content := Normalize(b.text);
            var ws := WindowsFrom(content, 0, maxChars, overlapChars);
            && |BlockPieces(b, maxChars, overlapChars)| == |ws|
            && ws[i].start <= FreshFrom(ws, i) <= ws[i].stop <= |content|
            && Holds(BlockPieces(b, maxChars, overlapChars)[i], b, content, ws[i], FreshFrom(ws, i))
            && Tidy(BlockPieces(b, maxChars, overlapChars)[i].content)
  {
    hide Spelled, Strip, Normalize, WindowsFrom, BlockPieces, Holds, Tidy, NewText;
    var content := Normalize(b.text);
    var ws := WindowsFrom(content, 0, maxChars, overlapChars);
    NormalizeKeeps(b.text);
    PiecesAreCuts(b, maxChars, overlapChars, i);
    WindowsInOrder(content, maxChars, overlapChars);
    WindowsAreNotBlank(content, maxChars, overlapChars, i);
    CutHolds(b, content, ws[i], FreshFrom(ws, i));
    CutIsTidy(content, ws[i]);
  }

  predicate IsSuffix<T(==)>(a: seq<T>, b: seq<T>) { |a| <= |b| && b[|b| - |a|..] == a }

  function Drop<T>(s: seq<T>, n: nat): seq<T> { if n <= |s| then s[n..] else [] }

  /** The gap in front of each piece, and how many characters at its front, whitespace aside, repeat the end of the
      piece before it: at most the overlap, with the gaps between them, and only under the same tags. */
  datatype Seam = Seam(gap: bool, cut: nat)

  predicate Repeats(pieces: seq<Piece>, seams: seq<Seam>, overlapChars: int) {
    && |seams| == |pieces|
    && forall i :: 0 <= i < |pieces| ==> RepeatsAt(pieces, seams, i, overlapChars)
  }

  predicate RepeatsAt(pieces: seq<Piece>, seams: seq<Seam>, i: nat, overlapChars: int)
    requires i < |pieces| == |seams|
  {
    var said := Spelled(pieces[i].content, seams[i].gap);
    && Tidy(pieces[i].content) && pieces[i].content != ""
    && seams[i].cut <= |said| && seams[i].cut <= overlapChars
    && (seams[i].cut > 0 ==>
          && i > 0
          && pieces[i].section == pieces[i - 1].section && pieces[i].page == pieces[i - 1].page
          && IsSuffix(said[..seams[i].cut], Spelled(pieces[i - 1].content, seams[i - 1].gap)))
  }

  /** What the pieces say without their repeats: each character that is not whitespace and the gap before it, under
      the tags of its piece. */
  function TaggedPieces(pieces: seq<Piece>, seams: seq<Seam>): seq<Tagged>
    requires |seams| == |pieces|
  {
    if pieces == [] then [] else
    var n := |pieces| - 1;
    TaggedPieces(pieces[..n], seams[..n])
    + Tag(Drop(Spelled(pieces[n].content, seams[n].gap), seams[n].cut), pieces[n].section, pieces[n].page)
  }

  lemma {:induction false} TaggedPiecesConcat(a: seq<Piece>, ca: seq<Seam>, b: seq<Piece>, cb: seq<Seam>)
    requires |ca| == |a| && |cb| == |b|
    ensures TaggedPieces(a + b, ca + cb) == TaggedPieces(a, ca) + TaggedPieces(b, cb)
  {
    hide Spelled, Tag, Drop;
    if b == [] {
      assert a + b == a && ca + cb == ca;
    } else {
      var n := |b| - 1;
      assert (a + b)[..|a| + n] == a + b[..n] && (ca + cb)[..|a| + n] == ca + cb[..n];
      TaggedPiecesConcat(a, ca, b[..n], cb[..n]);
      var last := Tag(Drop(Spelled(b[n].content, cb[n].gap), cb[n].cut), b[n].section, b[n].page);
      assert TaggedPieces(b, cb) == TaggedPieces(b[..n], cb[..n]) + last;
      Regroup(TaggedPieces(a, ca), TaggedPieces(b[..n], cb[..n]), last);
    }
  }

  lemma RepeatsConcat(a: seq<Piece>, ca: seq<Seam>, b: seq<Piece>, cb: seq<Seam>, overlapChars: int)
    requires Repeats(a, ca, overlapChars) && Repeats(b, cb, overlapChars)
    ensures Repeats(a + b, ca + cb, overlapChars)
  {
    hide Spelled, IsSuffix, Tidy;
    forall i | 0 <= i < |a + b| ensures RepeatsAt(a + b, ca + cb, i, overlapChars) {
      if i < |a| {
        assert RepeatsAt(a, ca, i, overlapChars);
      } else {
        assert RepeatsAt(b, cb, i - |a|, overlapChars);
      }
    }
  }

  lemma {:induction false} SpelledIsShorter(s: string, gap: bool)
    ensures |Spelled(s, gap)| <= |s|
  {
    if s != "" { SpelledIsShorter(s[1..], IsSpace(s[0])); }
  }

  /** What window i shares with the window before it. */
  function Share(content: string, ws: seq<Window>, i: nat): seq<Mark>
    requires i < |ws| && ws[i].start <= FreshFrom(ws, i) <= |content|
  {
    Spelled(content[ws[i].start..FreshFrom(ws, i)], GapAt(content, ws[i].start))
  }

  lemma ShareIsRepeated(content: string, ws: seq<Window>, i: nat, maxChars: int, overlapChars: int)
    requires 0 < i < |ws| && Fit(ws, content, 0, maxChars, overlapChars)
    ensures ws[i].start <= FreshFrom(ws, i) <= |content|
    ensures |Share(content, ws, i)| <= overlapChars
    ensures ws[i - 1].start <= ws[i - 1].stop
    ensures IsSuffix(Share(content, ws, i),
                     Spelled(content[ws[i - 1].start..ws[i - 1].stop], GapAt(content, ws[i - 1].start)))
  {
    hide Spelled, GapAfter;
    var v, w := ws[i - 1], ws[i];
    assert Within(v, content, 0, maxChars) && Within(w, content, 0, maxChars) && Follows(v, w, maxChars, overlapChars);
    SpelledIsShorter(content[w.start..v.stop], GapAt(content, w.start));
    SpelledConcat(content[v.start..w.start], content[w.start..v.stop], GapAt(content, v.start));
    GapMoves(content, v.start, w.start);
    assert content[v.start..w.start] + content[w.start..v.stop] == content[v.start..v.stop];
  }

  /** The pieces of a block, one by one, repeat their share and add the rest. */
  lemma PieceRepeats(b: Block, maxChars: int, overlapChars: int, i: nat)
    requires ValidSizes(maxChars, overlapChars) && i < |BlockPieces(b, maxChars, overlapChars)|
    ensures var content := Normalize(b.text);
            var ws := WindowsFrom(content, 0, maxChars, overlapChars);
            var pieces := BlockPieces(b, maxChars, overlapChars);
            && |pieces| == |ws| && ws[i].start <= FreshFrom(ws, i) <= ws[i].stop <= |content|
            && pieces[i].section == b.section && pieces[i].page == b.page
            && pieces[i].content != "" && Tidy(pieces[i].content)
            && Spelled(pieces[i].content, StartGap(content, ws[i])) == Share(content, ws, i) + Spoken(content, ws, i)
            && |Share(content, ws, i)| <= overlapChars
            && (i == 0 ==> Share(content, ws, i) == [])
            && (i > 0 ==> ws[i - 1].start <= ws[i - 1].stop <= |content|
                          && IsSuffix(Share(content, ws, i),
                                      Spelled(pieces[i - 1].content, StartGap(content, ws[i - 1]))))
  {
    hide Spelled, Normalize, WindowsFrom, BlockPieces, IsSuffix, Cut, Fit, Tidy, StartGap, GapAt;
    var content := Normalize(b.text);
    var ws := WindowsFrom(content, 0, maxChars, overlapChars);
    EachChunkHolds(b, maxChars, overlapChars, i);
    WindowsFit(content, 0, maxChars, overlapChars);
    if i > 0 {
      EachChunkHolds(b, maxChars, overlapChars, i - 1);
      ShareIsRepeated(content, ws, i, maxChars, overlapChars);
      WindowSaysAll(content, ws[i - 1], FreshFrom(ws, i - 1));
    } else {
      NoShare(content);
    }
  }

  lemma WindowSaysAll(content: string, w: Window, from: nat)
    requires w.start <= from <= w.stop <= |content|
    ensures Spelled(content[w.start..w.stop], GapAt(content, w.start))
            == Spelled(content[w.start..from], GapAt(content, w.start)) + Spelled(content[from..w.stop], GapAt(content, from))
  {
    hide Spelled, GapAfter;
    SpelledConcat(content[w.start..from], content[from..w.stop], GapAt(content, w.start));
    GapMoves(content, w.start, from);
    assert content[w.start..from] + content[from..w.stop] == content[w.start..w.stop];
  }

  lemma NoShare(content: string)
    ensures Spelled(content[0..0], GapAt(content, 0)) == []
  {
    assert content[0..0] == "";
  }

  lemma OneMoreSays(content: string, ws: seq<Window>, pieces: seq<Piece>, seams: seq<Seam>, n: nat)
    requires InOrder(content, ws) && n <= |ws| == |pieces| == |seams|
    ensures n == 0 ==> TaggedPieces(pieces[..n], seams[..n]) == [] && NewText(content, ws, n) == []
    ensures n > 0 ==>
              && TaggedPieces(pieces[..n], seams[..n])
                 == TaggedPieces(pieces[..n - 1], seams[..n - 1])
                    + Tag(Drop(Spelled(pieces[n - 1].content, seams[n - 1].gap), seams[n - 1].cut),
                          pieces[n - 1].section, pieces[n - 1].page)
              && NewText(content, ws, n) == NewText(content, ws, n - 1) + Spoken(content, ws, n - 1)
  {
    hide Spelled, Tag, Drop, Spoken, InOrder;
    if n > 0 {
      assert pieces[..n][..n - 1] == pieces[..n - 1] && seams[..n][..n - 1] == seams[..n - 1];
    }
  }

  lemma {:induction false} PiecesSay(content: string, ws: seq<Window>, b: Block, pieces: seq<Piece>, seams: seq<Seam>, n: nat)
    requires InOrder(content, ws) && n <= |ws| == |pieces| == |seams|
    requires forall i :: 0 <= i < |ws| ==> Adds(content, ws, b, pieces[i], seams[i], i)
    ensures TaggedPieces(pieces[..n], seams[..n]) == Tag(NewText(content, ws, n), b.section, b.page)
  {
    hide Spelled, Tag, Drop, Spoken, TaggedPieces, NewText, InOrder;
    OneMoreSays(content, ws, pieces, seams, n);
    if n == 0 {
      TagNothing(b.section, b.page);
    } else {
      PiecesSay(content, ws, b, pieces, seams, n - 1);
      assert Adds(content, ws, b, pieces[n - 1], seams[n - 1], n - 1);
      TagConcat(NewText(content, ws, n - 1), Spoken(content, ws, n - 1), b.section, b.page);
    }
  }

  /** Behind its cut a piece says what its window adds, under the block's tags. */
  predicate Adds(content: string, ws: seq<Window>, b: Block, piece: Piece, seam: Seam, i: nat)
    requires i < |ws|
  {
    && FreshFrom(ws, i) <= ws[i].stop <= |content|
    && Drop(Spelled(piece.content, seam.gap), seam.cut) == Spoken(content, ws, i)
    && piece.section == b.section && piece.page == b.page
  }

  /** The chunks of a block, repeats removed, say exactly what the block says, characters and gaps, in order and
      under its tags. */
  lemma ChunksConserve(b: Block, maxChars: int, overlapChars: int) returns (seams: seq<Seam>)
    requires ValidSizes(maxChars, overlapChars)
    ensures Repeats(BlockPieces(b, maxChars, overlapChars), seams, overlapChars)
    ensures TaggedPieces(BlockPieces(b, maxChars, overlapChars), seams) == Tag(Spelled(b.text, true), b.section, b.page)
  {
    hide Spelled, Normalize, WindowsFrom, BlockPieces, Tag, NewText, InOrder, TaggedPieces, StartGap, Spoken, Share,
         RepeatsAt, Drop, Adds;
    var content := Normalize(b.text);
    var ws := WindowsFrom(content, 0, maxChars, overlapChars);
    var pieces := BlockPieces(b, maxChars, overlapChars);
    NormalizeKeeps(b.text);
    WindowsCover(content, maxChars, overlapChars);
    PiecesAreCuts(b, maxChars, overlapChars, 0);
    forall i | 0 <= i < |ws| ensures ws[i].start <= FreshFrom(ws, i) <= ws[i].stop <= |content| {
      PieceRepeats(b, maxChars, overlapChars, i);
    }
    seams := seq(|ws|, i requires 0 <= i < |ws| => Seam(StartGap(content, ws[i]), |Share(content, ws, i)|));
    forall i | 0 <= i < |pieces|
      ensures RepeatsAt(pieces, seams, i, overlapChars) && Adds(content, ws, b, pieces[i], seams[i], i)
    {
      SeamFits(b, maxChars, overlapChars, seams, i);
    }
    PiecesSay(content, ws, b, pieces, seams, |ws|);
    assert pieces[..|ws|] == pieces && seams[..|ws|] == seams;
  }

  lemma SeamFits(b: Block, maxChars: int, overlapChars: int, seams: seq<Seam>, i: nat)
    requires ValidSizes(maxChars, overlapChars)
    requires i < |BlockPieces(b, maxChars, overlapChars)| == |seams|
    requires var content := Normalize(b.text);
             var ws := WindowsFrom(content, 0, maxChars, overlapChars);
             && |ws| == |seams|
             && forall k :: 0 <= k < |ws| ==>
                  && ws[k].start <= FreshFrom(ws, k) <= ws[k].stop <= |content|
                  && seams[k] == Seam(StartGap(content, ws[k]), |Share(content, ws, k)|)
    ensures var content := Normalize(b.text);
            var ws := WindowsFrom(content, 0, maxChars, overlapChars);
            var pieces := BlockPieces(b, maxChars, overlapChars);
            RepeatsAt(pieces, seams, i, overlapChars) && Adds(content, ws, b, pieces[i], seams[i], i)
  {
    hide Spelled, Normalize, WindowsFrom, BlockPieces, IsSuffix, Tidy, StartGap, Spoken, Share, Drop, FreshFrom;
    var content := Normalize(b.text);
    var ws := WindowsFrom(content, 0, maxChars, overlapChars);
    PieceRepeats(b, maxChars, overlapChars, i);
    CutInTwo(Share(content, ws, i), Spoken(content, ws, i));
    if i > 0 { PieceRepeats(b, maxChars, overlapChars, i - 1); }
  }

  lemma CutInTwo<T>(a: seq<T>, b: seq<T>)
    ensures |a| <= |a + b| && (a + b)[..|a|] == a && Drop(a + b, |a|) == b
  {
  }

  lemma {:induction false} TaggedBlocksAppend(blocks: seq<Block>, b: Block)
    ensures TaggedBlocks(blocks + [b]) == TaggedBlocks(blocks) + Tag(Spelled(b.text, true), b.section, b.page)
  {
    hide Spelled, Tag;
    if blocks == [] {
      assert [] + [b] == [b] && [b][1..] == [];
    } else {
      assert (blocks + [b])[1..] == blocks[1..] + [b];
      TaggedBlocksAppend(blocks[1..], b);
    }
  }

  lemma OneSeamEach(pieces: seq<Piece>, seams: seq<Seam>, overlapChars: int)
    requires Repeats(pieces, seams, overlapChars)
    ensures |seams| == |pieces|
  {
  }

  lemma NothingSaid(overlapChars: int)
    ensures Repeats([], [], overlapChars) && TaggedPieces([], []) == TaggedBlocks([]) == []
  {
  }

  /** The chunks of any blocks, repeats removed, say what the blocks say, each under the tags of its block. */
  lemma {:induction false} BlocksSurvive(blocks: seq<Block>, maxChars: int, overlapChars: int) returns (seams: seq<Seam>)
    requires ValidSizes(maxChars, overlapChars)
    ensures Repeats(Pieces(blocks, maxChars, overlapChars), seams, overlapChars)
    ensures TaggedPieces(Pieces(blocks, maxChars, overlapChars), seams) == TaggedBlocks(blocks)
  {
    hide BlockPieces, Spelled, Tag, Repeats, TaggedPieces, TaggedBlocks;
    seams := [];
    if blocks == [] {
      NothingSaid(overlapChars);
    } else {
      var n := |blocks| - 1;
      var before := BlocksSurvive(blocks[..n], maxChars, overlapChars);
      var mine := ChunksConserve(blocks[n], maxChars, overlapChars);
      OneSeamEach(Pieces(blocks[..n], maxChars, overlapChars), before, overlapChars);
      OneSeamEach(BlockPieces(blocks[n], maxChars, overlapChars), mine, overlapChars);
      seams := before + mine;
      TaggedPiecesConcat(Pieces(blocks[..n], maxChars, overlapChars), before,
                         BlockPieces(blocks[n], maxChars, overlapChars), mine);
      RepeatsConcat(Pieces(blocks[..n], maxChars, overlapChars), before,
                    BlockPieces(blocks[n], maxChars, overlapChars), mine, overlapChars);
      TaggedBlocksAppend(blocks[..n], blocks[n]);
      assert blocks == blocks[..n] + [blocks[n]];
    }
  }

  lemma {:induction false} PiecesSpeak(pieces: seq<Piece>, seams: seq<Seam>, overlapChars: int)
    requires Repeats(pieces, seams, overlapChars) && pieces != []
    ensures TaggedPieces(pieces, seams) != []
  {
    hide Spelled, Tag;
    var n := |pieces| - 1;
    if n == 0 {
      assert RepeatsAt(pieces, seams, 0, overlapChars);
      TidySpeaks(pieces[0].content, seams[0].gap);
      TagLength(Spelled(pieces[0].content, seams[0].gap), pieces[0].section, pieces[0].page);
    } else {
      forall i | 0 <= i < n ensures RepeatsAt(pieces[..n], seams[..n], i, overlapChars) {
        assert RepeatsAt(pieces, seams, i, overlapChars);
      }
      PiecesSpeak(pieces[..n], seams[..n], overlapChars);
    }
  }

  lemma TidySpeaks(s: string, gap: bool)
    requires Tidy(s) && s != ""
    ensures Spelled(s, gap) != []
  {
  }

  lemma TagLength(s: seq<Mark>, section: Option<string>, page: Option<nat>)
    ensures |Tag(s, section, page)| == |s|
  {
  }

  /** There are no chunks exactly when there is no text. */
  lemma NoPiecesIff(blocks: seq<Block>, maxChars: int, overlapChars: int)
    requires ValidSizes(maxChars, overlapChars)
    ensures Pieces(blocks, maxChars, overlapChars) == [] <==> TaggedBlocks(blocks) == []
  {
    hide Pieces, TaggedBlocks, Repeats, TaggedPieces;
    var seams := BlocksSurvive(blocks, maxChars, overlapChars);
    NothingSaid(overlapChars);
    OneSeamEach(Pieces(blocks, maxChars, overlapChars), seams, overlapChars);
    if Pieces(blocks, maxChars, overlapChars) != [] {
      PiecesSpeak(Pieces(blocks, maxChars, overlapChars), seams, overlapChars);
    }
  }

  /** The pieces behind some chunks. */
  function PiecesOf(chunks: seq<Chunk>): seq<Piece> {
    seq(|chunks|, i requires 0 <= i < |chunks| => Piece(chunks[i].section, chunks[i].page, chunks[i].content))
  }

  /** Chunks are numbered from 0 and count half their characters as tokens, but at least one. */
  predicate WellNumbered(chunks: seq<Chunk>) {
    forall i :: 0 <= i < |chunks| ==>
      chunks[i].ordinal == i && chunks[i].tokenCount == if |chunks[i].content| < 2 then 1 else |chunks[i].content| / 2
  }

  lemma NumberedWell(pieces: seq<Piece>)
    ensures WellNumbered(Numbered(pieces)) && PiecesOf(Numbered(pieces)) == pieces
  {
  }

  /** Parsing and chunking a document: the chunks it ends up with are normalized, and each repeats at most the
      overlap from the end of the chunk before it. Without these repeats the chunks say what the document's text
      lines say: the same characters, in order, with gaps between the same ones, each under the tags of the last
      heading and page marker before its line. */
  lemma DocumentSurvives(lines: seq<string>, maxChars: int, overlapChars: int)
    returns (chunks: seq<Chunk>, seams: seq<Seam>)
    requires ValidSizes(maxChars, overlapChars)
    ensures chunks == Numbered(Pieces(BlocksFrom(Classified(lines), 0), maxChars, overlapChars))
    ensures Repeats(PiecesOf(chunks), seams, overlapChars) && WellNumbered(chunks)
    ensures TaggedPieces(PiecesOf(chunks), seams) == TaggedLines(Classified(lines), 0)
  {
    hide Pieces, BlocksFrom, Repeats, TaggedPieces, TaggedLines, Numbered, WellNumbered;
    var blocks := BlocksFrom(Classified(lines), 0);
    chunks := Numbered(Pieces(blocks, maxChars, overlapChars));
    seams := BlocksSurvive(blocks, maxChars, overlapChars);
    BlocksConserve(Classified(lines), 0);
    NumberedWell(Pieces(blocks, maxChars, overlapChars));
  }
}
