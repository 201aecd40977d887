/** Splitting long text into windows for embedding. Text is its sequence of
    characters; which of them are white space is a parameter. A chunk is a span of
    the text, as the borrowed slices of the original are. */
module ChunkText {
  import opened Prelude

  datatype Span = Span(start: nat, end: nat)

  type Spaces = char -> bool

  ghost predicate InText(text: string, span: Span) {
    span.start <= span.end <= |text|
  }

  predicate Blank(text: string, ws: Spaces, lo: nat, hi: nat)
    requires lo <= hi <= |text|
  {
    forall i | lo <= i < hi :: ws(text[i])
  }

  /** The characters of text[lo..hi] that are not white space, in order. */
  function NonSpace(text: string, ws: Spaces, lo: nat, hi: nat): string
    requires lo <= hi <= |text|
    decreases hi
  {
    if lo == hi then "" else NonSpace(text, ws, lo, hi - 1) + if ws(text[hi - 1]) then "" else [text[hi - 1]]
  }

  ghost predicate AllInText(text: string, spans: seq<Span>) {
    forall k | 0 <= k < |spans| :: InText(text, spans[k])
  }

  /** The same of a list of spans, one after the other. */
  function NonSpaceOf(text: string, ws: Spaces, spans: seq<Span>): string
    requires AllInText(text, spans)
  {
    if spans == [] then ""
    else
      var last := spans[|spans| - 1];
      NonSpaceOf(text, ws, spans[..|spans| - 1]) + NonSpace(text, ws, last.start, last.end)
  }

  /** A maximal run of characters that are not white space. */
  ghost predicate Word(text: string, ws: Spaces, i: nat, j: nat) {
    && i < j <= |text|
    && (forall k | i <= k < j :: !ws(text[k]))
    && (i == 0 || ws(text[i - 1]))
    && (j == |text| || ws(text[j]))
  }

  ghost predicate Covered(spans: seq<Span>, i: nat, j: nat) {
    exists k | 0 <= k < |spans| :: spans[k].start <= i && j <= spans[k].end
  }

  // ------------------------------------------------------------------ filter

  lemma {:induction false} NonSpaceSplit(text: string, ws: Spaces, lo: nat, mid: nat, hi: nat)
    requires lo <= mid <= hi <= |text|
    ensures NonSpace(text, ws, lo, hi) == NonSpace(text, ws, lo, mid) + NonSpace(text, ws, mid, hi)
    decreases hi
  {
    if mid < hi {
      NonSpaceSplit(text, ws, lo, mid, hi - 1);
    }
  }

  lemma {:induction false} NonSpaceOfBlank(text: string, ws: Spaces, lo: nat, hi: nat)
    requires lo <= hi <= |text| && Blank(text, ws, lo, hi)
    ensures NonSpace(text, ws, lo, hi) == ""
    decreases hi
  {
    if lo < hi {
      NonSpaceOfBlank(text, ws, lo, hi - 1);
    }
  }

  /** Moving past a span and the white space after it. */
  lemma NextSpan(text: string, ws: Spaces, spans: seq<Span>, pos: nat, cut: nat, next: nat)
    requires AllInText(text, spans) && pos <= cut <= next <= |text|
    requires NonSpaceOf(text, ws, spans) == NonSpace(text, ws, 0, pos)
    requires Blank(text, ws, cut, next)
    ensures NonSpaceOf(text, ws, spans + [Span(pos, cut)]) == NonSpace(text, ws, 0, next)
    ensures Blank(text, ws, pos, cut) ==> NonSpaceOf(text, ws, spans) == NonSpace(text, ws, 0, next)
  {
    var longer := spans + [Span(pos, cut)];
    assert longer[..|longer| - 1] == spans;
    NonSpaceSplit(text, ws, 0, pos, cut);
    NonSpaceSplit(text, ws, 0, cut, next);
    NonSpaceOfBlank(text, ws, cut, next);
    if Blank(text, ws, pos, cut) {
      NonSpaceOfBlank(text, ws, pos, cut);
    }
  }

  /** out.retain(|c| !c.trim().is_empty()). */
  function Retain(text: string, ws: Spaces, spans: seq<Span>): (kept: seq<Span>)
    requires AllInText(text, spans)
    ensures AllInText(text, kept)
  {
    if spans == [] then []
    else
      var last := spans[|spans| - 1];
      Retain(text, ws, spans[..|spans| - 1]) + if Blank(text, ws, last.start, last.end) then [] else [last]
  }

  lemma {:induction false} RetainKeeps(text: string, ws: Spaces, spans: seq<Span>)
    requires AllInText(text, spans)
    ensures NonSpaceOf(text, ws, Retain(text, ws, spans)) == NonSpaceOf(text, ws, spans)
  {
    if spans != [] {
      var front, last := spans[..|spans| - 1], spans[|spans| - 1];
      RetainKeeps(text, ws, front);
      var kept := Retain(text, ws, front);
      if Blank(text, ws, last.start, last.end) {
        NonSpaceOfBlank(text, ws, last.start, last.end);
        assert Retain(text, ws, spans) == kept;
      } else {
        assert (kept + [last])[..|kept|] == kept;
      }
    }
  }

  lemma {:induction false} RetainMembers(text: string, ws: Spaces, spans: seq<Span>, span: Span)
    requires AllInText(text, spans) && InText(text, span)
    ensures span in Retain(text, ws, spans) <==> span in spans && !Blank(text, ws, span.start, span.end)
  {
    if spans != [] {
      RetainMembers(text, ws, spans[..|spans| - 1], span);
      assert spans == spans[..|spans| - 1] + [spans[|spans| - 1]];
    }
  }

  lemma RetainCovers(text: string, ws: Spaces, spans: seq<Span>, i: nat, j: nat)
    requires AllInText(text, spans) && Word(text, ws, i, j) && Covered(spans, i, j)
    ensures Covered(Retain(text, ws, spans), i, j)
  {
    var k :| 0 <= k < |spans| && spans[k].start <= i && j <= spans[k].end;
    assert !ws(text[i]);
    RetainMembers(text, ws, spans, spans[k]);
  }

  // ---------------------------------------------------------------- chunking

  /** The window scan: where the window of `size` characters from pos ends, and the
      last white space inside it. */
  method ScanWindow(text: string, ws: Spaces, pos: nat, size: nat) returns (cut: nat, lastWs: Option<nat>)
    requires pos <= |text|
    ensures cut == if |text| - pos > size then pos + size else |text|
    ensures lastWs.None? ==> forall i | pos <= i < cut :: !ws(text[i])
    ensures lastWs.Some? ==> pos <= lastWs.value < cut && ws(text[lastWs.value])
                             && forall i | lastWs.value < i < cut :: !ws(text[i])
  {
    lastWs := None;
    for i := pos to |text|
      invariant i - pos <= size
      invariant lastWs.None? ==> forall k | pos <= k < i :: !ws(text[k])
      invariant lastWs.Some? ==> pos <= lastWs.value < i && ws(text[lastWs.value])
                                 && forall k | lastWs.value < k < i :: !ws(text[k])
    {
      if i - pos == size {
        return i, lastWs;
      }
      if ws(text[i]) {
        lastWs := Some(i);
      }
    }
    cut := |text|;
  }

  method SkipSpace(text: string, ws: Spaces, from: nat) returns (pos: nat)
    requires from <= |text|
    ensures from <= pos <= |text| && Blank(text, ws, from, pos)
    ensures pos < |text| ==> !ws(text[pos])
  {
    pos := from;
    while pos < |text| && ws(text[pos])
      invariant from <= pos <= |text| && Blank(text, ws, from, pos)
    {
      pos := pos + 1;
    }
  }

  ghost predicate LeftTrimmed(text: string, ws: Spaces) {
    text == "" || !ws(text[0])
  }

  /** Words no longer than the window are done or ahead of pos, never across it. */
  ghost predicate WordsWholeUpTo(text: string, ws: Spaces, size: nat, spans: seq<Span>, pos: nat) {
    && (pos < |text| ==> !ws(text[pos]))
    && (forall i: nat, j: nat | Word(text, ws, i, j) && j - i <= size && i < pos :: Covered(spans, i, j))
  }

  lemma WordsStayWhole(text: string, ws: Spaces, size: nat, spans: seq<Span>, pos: nat, cut: nat, next: nat,
                       longer: seq<Span>)
    requires WordsWholeUpTo(text, ws, size, spans, pos) && pos <= cut <= next <= |text|
    requires Blank(text, ws, cut, next) && (next < |text| ==> !ws(text[next]))
    requires longer == spans + [Span(pos, cut)] || (longer == spans && Blank(text, ws, pos, cut))
    requires cut < |text| ==> ws(text[cut]) || (cut == pos + size && forall k | pos <= k < cut :: !ws(text[k]))
    ensures WordsWholeUpTo(text, ws, size, longer, next)
  {
    forall i: nat, j: nat | Word(text, ws, i, j) && j - i <= size && i < next ensures Covered(longer, i, j) {
      if i < pos {
        var k :| 0 <= k < |spans| && spans[k].start <= i && j <= spans[k].end;
        assert longer[k] == spans[k];
      } else {
        assert !ws(text[i]);
        assert i < cut;
        assert i > pos ==> ws(text[i - 1]);
        assert j <= cut;
        assert longer[|spans|] == Span(pos, cut);
      }
    }
  }

  // ------------------------------------------------------------ where it cuts

  /** Where a chunk that starts at `start` ends: at the end of the text if the rest fits
      the window; otherwise at the last white space inside the window, or, if there is
      none after the first character, at the end of the window. */
  ghost predicate CutAt(text: string, ws: Spaces, size: nat, start: nat, end: nat) {
    && start < end <= |text|
    && if |text| - start <= size then end == |text|
       else
         && end <= start + size
         && (forall i | end < i < start + size :: !ws(text[i]))
         && if end < start + size then ws(text[end]) else forall i | start < i < end :: !ws(text[i])
  }

  /** One chunk after the other, each starting where something other than white space
      does, with nothing but white space between them. */
  ghost predicate Laid(text: string, ws: Spaces, size: nat, spans: seq<Span>) {
    && (forall k | 0 <= k < |spans| ::
          CutAt(text, ws, size, spans[k].start, spans[k].end) && !ws(text[spans[k].start]))
    && (forall k | 0 < k < |spans| ::
          spans[k - 1].end <= spans[k].start && Blank(text, ws, spans[k - 1].end, spans[k].start))
    && (spans != [] ==> spans[0].start == 0)
  }

  /** How far a list of spans reaches, white space aside. */
  ghost predicate Reaches(text: string, ws: Spaces, spans: seq<Span>, pos: nat) {
    pos <= |text| &&
    if spans == [] then pos == 0
    else spans[|spans| - 1].end <= pos && Blank(text, ws, spans[|spans| - 1].end, pos)
  }

  /** The chunks of a text that does not start with white space. */
  ghost predicate Tiled(text: string, ws: Spaces, size: nat, chunks: seq<Span>) {
    Laid(text, ws, size, chunks) && Reaches(text, ws, chunks, |text|)
  }

  lemma CutUnique(text: string, ws: Spaces, size: nat, start: nat, e: nat, f: nat)
    requires CutAt(text, ws, size, start, e) && CutAt(text, ws, size, start, f)
    ensures e == f
  {
  }

  /** The tiling is determined: chunk by chunk, two tilings of the same text agree. */
  lemma {:induction false} TilingsAgree(text: string, ws: Spaces, size: nat, a: seq<Span>, b: seq<Span>, n: nat)
    requires Tiled(text, ws, size, a) && Tiled(text, ws, size, b) && n <= |a|
    ensures n <= |b| && forall k | 0 <= k < n :: a[k] == b[k]
  {
    if n > 0 {
      TilingsAgree(text, ws, size, a, b, n - 1);
      NextStartAgrees(text, ws, size, a, b, n - 1);
      CutUnique(text, ws, size, a[n - 1].start, a[n - 1].end, b[n - 1].end);
    }
  }

  lemma NextStartAgrees(text: string, ws: Spaces, size: nat, a: seq<Span>, b: seq<Span>, n: nat)
    requires Tiled(text, ws, size, a) && Tiled(text, ws, size, b) && n < |a| && n <= |b|
    requires n > 0 ==> a[n - 1] == b[n - 1]
    ensures n < |b| && a[n].start == b[n].start
  {
    assert !ws(text[a[n].start]);
    if 0 < n < |b| {
      assert Blank(text, ws, a[n - 1].end, a[n].start) && Blank(text, ws, b[n - 1].end, b[n].start);
      assert !ws(text[b[n].start]);
    }
  }

  lemma ChunksDetermined(text: string, ws: Spaces, size: nat, a: seq<Span>, b: seq<Span>)
    requires Tiled(text, ws, size, a) && Tiled(text, ws, size, b)
    ensures a == b
  {
    TilingsAgree(text, ws, size, a, b, |a|);
    TilingsAgree(text, ws, size, b, a, |b|);
  }

  // -------------------------------------------------------------- the loop

  /** What the loop has done up to pos: spans that fit, with everything but white space
      so far, and words whole. */
  ghost predicate Chunked(text: string, ws: Spaces, size: nat, spans: seq<Span>, pos: nat) {
    && pos <= |text| && AllInText(text, spans)
    && (forall k | 0 <= k < |spans| :: spans[k].end - spans[k].start <= size)
    && NonSpaceOf(text, ws, spans) == NonSpace(text, ws, 0, pos)
    && (LeftTrimmed(text, ws) ==> WordsWholeUpTo(text, ws, size, spans, pos))
    && (LeftTrimmed(text, ws) ==> Laid(text, ws, size, spans) && Reaches(text, ws, spans, pos))
  }

  /** A span cut by the rule, and the white space after it skipped, extends the tiling. */
  lemma LayNext(text: string, ws: Spaces, size: nat, spans: seq<Span>, pos: nat, cut: nat, next: nat)
    requires Laid(text, ws, size, spans) && Reaches(text, ws, spans, pos)
    requires CutAt(text, ws, size, pos, cut) && !ws(text[pos])
    requires cut <= next <= |text| && Blank(text, ws, cut, next)
    ensures Laid(text, ws, size, spans + [Span(pos, cut)]) && Reaches(text, ws, spans + [Span(pos, cut)], next)
  {
    var longer := spans + [Span(pos, cut)];
    assert longer[|spans|] == Span(pos, cut);
    forall k | 0 < k < |longer|
      ensures longer[k - 1].end <= longer[k].start && Blank(text, ws, longer[k - 1].end, longer[k].start)
    {
      assert longer[k - 1] == spans[k - 1];
    }
  }

  /** One round of the loop: the window is cut, and the white space after it skipped. */
  lemma NextChunk(text: string, ws: Spaces, size: nat, spans: seq<Span>, pos: nat, cut: nat, next: nat,
                  longer: seq<Span>)
    requires Chunked(text, ws, size, spans, pos) && pos < |text| && cut <= next <= |text| && cut - pos <= size
    requires Blank(text, ws, cut, next) && (next < |text| ==> !ws(text[next]))
    requires CutAt(text, ws, size, pos, cut)
    requires longer == spans + [Span(pos, cut)] || (longer == spans && Blank(text, ws, pos, cut))
    ensures Chunked(text, ws, size, longer, next)
  {
    NextSpan(text, ws, spans, pos, cut, next);
    if LeftTrimmed(text, ws) {
      assert !ws(text[pos]);
      WordsStayWhole(text, ws, size, spans, pos, cut, next, longer);
      LayNext(text, ws, size, spans, pos, cut, next);
    }
  }

  /** What chunk_text promises of its result. */
  ghost predicate GoodChunks(text: string, ws: Spaces, size: nat, chunks: seq<Span>) {
    && AllInText(text, chunks)
    && (forall k | 0 <= k < |chunks| ::
          chunks[k].end - chunks[k].start <= size && !Blank(text, ws, chunks[k].start, chunks[k].end))
    && NonSpaceOf(text, ws, chunks) == NonSpace(text, ws, 0, |text|)
    && (LeftTrimmed(text, ws) ==>
          forall i: nat, j: nat | Word(text, ws, i, j) && j - i <= size :: Covered(chunks, i, j))
    && (LeftTrimmed(text, ws) ==> Tiled(text, ws, size, chunks))
  }

  lemma {:induction false} RetainAll(text: string, ws: Spaces, spans: seq<Span>)
    requires AllInText(text, spans) && forall k | 0 <= k < |spans| :: !Blank(text, ws, spans[k].start, spans[k].end)
    ensures Retain(text, ws, spans) == spans
  {
    if spans != [] {
      RetainAll(text, ws, spans[..|spans| - 1]);
    }
  }

  lemma RetainedChunks(text: string, ws: Spaces, size: nat, spans: seq<Span>)
    requires Chunked(text, ws, size, spans, |text|)
    ensures GoodChunks(text, ws, size, Retain(text, ws, spans))
  {
    var chunks := Retain(text, ws, spans);
    RetainKeeps(text, ws, spans);
    forall k | 0 <= k < |chunks|
      ensures chunks[k].end - chunks[k].start <= size && !Blank(text, ws, chunks[k].start, chunks[k].end)
    {
      RetainMembers(text, ws, spans, chunks[k]);
      assert chunks[k] in chunks;
    }
    if LeftTrimmed(text, ws) {
      forall k | 0 <= k < |spans| ensures !Blank(text, ws, spans[k].start, spans[k].end) {
        assert !ws(text[spans[k].start]);
      }
      RetainAll(text, ws, spans);
      forall i: nat, j: nat | Word(text, ws, i, j) && j - i <= size ensures Covered(chunks, i, j) {
        RetainCovers(text, ws, spans, i, j);
      }
    }
  }

  /** chunk_text, for any text and any positive window. Each chunk fits the window and
      holds more than white space; the characters that are not white space come out
      once each, in order; and if the text does not start with white space, every word
      that fits the window stays inside one chunk, and the chunks are the one tiling of
      the text that is cut at the last white space of each window. */
  method Chunk(text: string, ws: Spaces, size: nat) returns (chunks: seq<Span>)
    requires size > 0
    ensures GoodChunks(text, ws, size, chunks)
  {
    var out: seq<Span> := [];
    var pos := 0;
    while pos < |text|
      invariant Chunked(text, ws, size, out, pos)
      decreases |text| - pos
    {
      var windowEnd, lastWs := ScanWindow(text, ws, pos, size);
      ghost var before := out;
      if windowEnd == |text| {
        out := out + [Span(pos, |text|)];
        NextChunk(text, ws, size, before, pos, |text|, |text|, out);
        pos := |text|;
        break;
      }
      var cut := if lastWs.Some? && lastWs.value > pos then lastWs.value else windowEnd;
      var next := SkipSpace(text, ws, cut);
      if !Blank(text, ws, pos, cut) {
        out := out + [Span(pos, cut)];
      }
      NextChunk(text, ws, size, before, pos, cut, next, out);
      pos := next;
    }
    chunks := Retain(text, ws, out);
    RetainedChunks(text, ws, size, out);
  }

  // ------------------------------------------------------------------- embed

  const MAX_EMBED_CHARS: nat := 10_000
  const CHUNK_CHARS: nat := 1_000

  function CapChars(text: string, limit: nat): string {
    if |text| > limit then text[..limit] else text
  }

  /** str::trim, as the bounds of what is left. */
  method Trim(text: string, ws: Spaces) returns (start: nat, end: nat)
    ensures start <= end <= |text| && Blank(text, ws, 0, start) && Blank(text, ws, end, |text|)
    ensures start < end ==> !ws(text[start]) && !ws(text[end - 1])
  {
    start := SkipSpace(text, ws, 0);
    end := |text|;
    while start < end && ws(text[end - 1])
      invariant start <= end <= |text| && Blank(text, ws, end, |text|)
    {
      end := end - 1;
    }
  }

  /** text[start..end] is the text without white space at its ends. */
  ghost predicate Trimmed(text: string, ws: Spaces, start: nat, end: nat) {
    && start < end <= |text| && Blank(text, ws, 0, start) && Blank(text, ws, end, |text|)
    && !ws(text[start]) && !ws(text[end - 1])
  }

  /** The chunks that embed turns into vectors: an error exactly on blank input, and
      otherwise the chunks of the trimmed text, cut to its first 10,000 characters; there
      is at least one, so the mean over chunks never divides by zero. */
  method EmbedChunks(text: string, ws: Spaces) returns (capped: string, chunks: Result<seq<Span>>)
    ensures chunks.Err? <==> Blank(text, ws, 0, |text|)
    ensures chunks.Ok? ==>
              && (exists start: nat, end: nat :: Trimmed(text, ws, start, end)
                                                 && capped <= text[start..end] && |capped| == Min(end - start, 10_000))
              && LeftTrimmed(capped, ws) && chunks.value != [] && GoodChunks(capped, ws, 1_000, chunks.value)
  {
    var start, end := Trim(text, ws);
    if start == end {
      return "", Err("empty text");
    }
    var trimmed := text[start..end];
    assert Trimmed(text, ws, start, end);
    assert trimmed[0] == text[start];
    capped := CapChars(trimmed, MAX_EMBED_CHARS);
    assert capped <= text[start..end] && |capped| == Min(end - start, 10_000);
    var spans := Chunk(capped, ws, CHUNK_CHARS);
    chunks := Ok(spans);
    NonSpaceSplit(capped, ws, 0, 1, |capped|);
    assert NonSpace(capped, ws, 0, 1) == NonSpace(capped, ws, 0, 0) + [capped[0]];
  }
}
