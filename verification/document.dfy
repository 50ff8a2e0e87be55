/**
  The document processor: the extension dispatch of `extract_text` and the
  overlapping chunker `chunk_text`.

  The chunker is specified by `Spans`, which gives the [lo, hi) index range
  of every chunk. A window of `size` characters starting at `start` is cut
  just after its last '.', or one character past the window when it has
  none; the next window starts `overlap` characters before that cut.

  A cut at index sp of a full window starting at `start` moves the next
  window past `start` exactly when sp - start >= overlap, that is, when the
  window's last '.' is not among its first `overlap` characters (for a
  window without '.', when overlap <= size). When the last '.' is at offset
  overlap - 1 the next window starts where the current one did, so the loop
  of the source appends the same chunk forever and never returns. When it
  is earlier the next start lies below the current one: a next start in
  [0, start) goes back over earlier text, and a negative next start (a cut
  among the first overlap - 1 characters of the text) is read by Python's
  negative indexing from the end of the text, so the loop stores an empty
  or misplaced chunk and skips text. `Spans` answers `None` for such
  inputs, so `Spans(...).Some?` is exactly the condition under which every
  cut makes progress.

  `PyChunk` is the loop as written, over Python's slice and `rfind` bounds.
  `PyChunkAgrees` shows it returns `Chunk` wherever `Spans` is defined;
  `DefaultParametersSkipText` and `DefaultParametersNeverReturn` show what
  it does on two texts where `Spans` is `None`.
*/
module Document {
  import opened Wrappers
  import opened Strings

  /** The defaults `chunk_text` is called with. */
  const DefaultChunkSize: nat := 1000
  const DefaultOverlap: int := 200

  /** The chunk text[lo..hi]. */
  datatype Span = Span(lo: nat, hi: nat)

  /**
    Where the window [start, start + size) is cut: at its last '.', or at
    start + size when the window holds no '.'. The chunk then ends just
    after this index.
  */
  function CutPoint(text: string, start: nat, size: nat): (sp: nat)
    requires start + size < |text|
    ensures start <= sp <= start + size
    ensures sp < start + size ==>
      text[sp] == '.' && forall j :: sp < j < start + size ==> text[j] != '.'
    ensures sp == start + size ==> forall j :: start <= j < start + size ==> text[j] != '.'
  {
    var d := RFind(text, '.', start, start + size);
    if d == -1 then start + size else d
  }

  /**
    The chunks the loop emits from window start `start` on, or `None` when
    some cut on the way fails to move the window forward.
  */
  function SpansFrom(text: string, start: nat, size: nat, overlap: int): (r: Option<seq<Span>>)
    decreases |text| - start
  {
    if start >= |text| then Some([])
    else if start + size >= |text| then Some([Span(start, |text|)])
    else
      var sp := CutPoint(text, start, size);
      var next := sp + 1 - overlap;
      if next <= start then None
      else
        match SpansFrom(text, next, size, overlap)
        case None => None
        case Some(rest) => Some([Span(start, sp + 1)] + rest)
  }

  /** The spans of `chunk_text(text, size, overlap)`; a text that fits one window is one chunk. */
  function Spans(text: string, size: nat, overlap: int): (r: Option<seq<Span>>)
  {
    if |text| <= size then Some([Span(0, |text|)]) else SpansFrom(text, 0, size, overlap)
  }

  /** The strings text[lo..hi] of the spans, in order. */
  function ChunksOf(text: string, spans: seq<Span>): (chunks: seq<string>)
    ensures |chunks| == |spans|
    decreases |spans|
  {
    if spans == [] then []
    else
      var last := spans[|spans| - 1];
      ChunksOf(text, spans[..|spans| - 1]) + [Slice(text, last)]
  }

  /** text[lo..hi], or "" for a span outside the text. */
  function Slice(text: string, sp: Span): string
  {
    if sp.lo <= sp.hi <= |text| then text[sp.lo..sp.hi] else ""
  }

  /** The chunk strings of `chunk_text(text, size, overlap)`, when every cut makes progress. */
  function Chunk(text: string, size: nat, overlap: int): Option<seq<string>>
  {
    match Spans(text, size, overlap)
    case None => None
    case Some(spans) => Some(ChunksOf(text, spans))
  }

  // ---------------------------------------------------------------------
  // The shape of the chunking

  /**
    `sp` is the piece cut from the window that starts at sp.lo: everything
    up to and including the window's last '.', or, when the window has no
    '.', exactly size + 1 characters.
  */
  ghost predicate IsCut(text: string, size: nat, sp: Span)
  {
    && sp.lo + size < |text|
    && sp.hi <= |text|
    && (|| (sp.hi == sp.lo + size + 1 && forall j :: sp.lo <= j < sp.lo + size ==> text[j] != '.')
        || (&& sp.lo < sp.hi <= sp.lo + size
            && text[sp.hi - 1] == '.'
            && forall j :: sp.hi <= j < sp.lo + size ==> text[j] != '.'))
  }

  /** `sp` is the tail appended once the rest of the text fits one window. */
  ghost predicate IsTail(text: string, size: nat, sp: Span)
  {
    sp.lo <= sp.hi == |text| && sp.hi - sp.lo <= size
  }

  /**
    The spans form one run of the loop: at least one chunk; every chunk but
    the last is a cut, and the next window starts `overlap` before its end
    and strictly after its start; the last chunk is the tail, or a cut after
    which the next window would start at or past the end of the text.
  */
  ghost predicate Chained(text: string, size: nat, overlap: int, spans: seq<Span>)
  {
    && |spans| >= 1
    && (forall k :: 0 <= k < |spans| - 1 ==> LinkedAt(text, size, overlap, spans, k))
    && var last := spans[|spans| - 1];
       || IsTail(text, size, last)
       || (IsCut(text, size, last) && last.hi - overlap >= |text|)
  }

  /**
    Chunk k is a cut, and chunk k + 1 starts `overlap` before its end and
    strictly after its start.
  */
  ghost predicate LinkedAt(text: string, size: nat, overlap: int, spans: seq<Span>, k: nat)
    requires k + 1 < |spans|
  {
    && IsCut(text, size, spans[k])
    && spans[k + 1].lo == spans[k].hi - overlap
    && spans[k].lo < spans[k + 1].lo
  }

  lemma {:induction false} SpansFromChained(text: string, start: nat, size: nat, overlap: int)
    requires start < |text|
    requires SpansFrom(text, start, size, overlap).Some?
    ensures Chained(text, size, overlap, SpansFrom(text, start, size, overlap).value)
    ensures SpansFrom(text, start, size, overlap).value[0].lo == start
    decreases |text| - start
  {
    if start + size < |text| {
      var sp := CutPoint(text, start, size);
      var next := sp + 1 - overlap;
      var s := SpansFrom(text, start, size, overlap).value;
      assert IsCut(text, size, Span(start, sp + 1));
      if next < |text| {
        SpansFromChained(text, next, size, overlap);
        var rest := SpansFrom(text, next, size, overlap).value;
        assert s == [Span(start, sp + 1)] + rest;
        CutThenChained(text, size, overlap, Span(start, sp + 1), rest);
      } else {
        assert s == [Span(start, sp + 1)];
      }
    }
  }

  /** A cut followed by a run that starts `overlap` before its end, and after its start, is a run. */
  lemma CutThenChained(text: string, size: nat, overlap: int, cut: Span, rest: seq<Span>)
    requires IsCut(text, size, cut) && Chained(text, size, overlap, rest)
    requires rest[0].lo == cut.hi - overlap && cut.lo < rest[0].lo
    ensures Chained(text, size, overlap, [cut] + rest)
  {
    var s := [cut] + rest;
    assert s[|s| - 1] == rest[|rest| - 1];
    forall k | 0 <= k < |s| - 1
      ensures LinkedAt(text, size, overlap, s, k)
    {
      if k > 0 {
        assert LinkedAt(text, size, overlap, rest, k - 1);
        assert s[k] == rest[k - 1] && s[k + 1] == rest[k];
      }
    }
  }

  /**
    Whenever every cut makes progress, the chunking is one run of the loop
    that starts at index 0; with a non-negative overlap it ends at the end
    of the text, and no chunk is longer than size + 1.
  */
  lemma ChunkingShape(text: string, size: nat, overlap: int)
    requires Spans(text, size, overlap).Some?
    ensures var s := Spans(text, size, overlap).value;
      && Chained(text, size, overlap, s)
      && s[0].lo == 0
      && (overlap >= 0 ==> s[|s| - 1].hi == |text|)
      && forall k :: 0 <= k < |s| ==> s[k].hi - s[k].lo <= size + 1
  {
    var s := Spans(text, size, overlap).value;
    if |text| > size {
      SpansFromChained(text, 0, size, overlap);
    }
    forall k | 0 <= k < |s| ensures s[k].hi - s[k].lo <= size + 1 {
      if k < |s| - 1 {
        assert LinkedAt(text, size, overlap, s, k);
      }
    }
  }

  /** Chunk k + 1 starts no later than chunk k ends. */
  ghost predicate NoGapAt(spans: seq<Span>, k: nat)
    requires k + 1 < |spans|
  {
    spans[k + 1].lo <= spans[k].hi
  }

  /** Spans whose successive starts never pass the previous end leave no index uncovered. */
  lemma {:induction false} GaplessCovers(spans: seq<Span>, i: int)
    requires |spans| >= 1
    requires forall k :: 0 <= k < |spans| - 1 ==> NoGapAt(spans, k)
    requires spans[0].lo <= i < spans[|spans| - 1].hi
    ensures exists k :: 0 <= k < |spans| && spans[k].lo <= i < spans[k].hi
    decreases |spans|
  {
    if i >= spans[0].hi {
      assert NoGapAt(spans, 0);
      forall k | 0 <= k < |spans[1..]| - 1 ensures NoGapAt(spans[1..], k) {
        assert NoGapAt(spans, k + 1);
      }
      GaplessCovers(spans[1..], i);
      var k :| 0 <= k < |spans[1..]| && spans[1..][k].lo <= i < spans[1..][k].hi;
      assert spans[k + 1] == spans[1..][k];
    }
  }

  /**
    With a non-negative overlap, every character of the text lies in some
    chunk: concatenating the chunks in order covers the whole text.
  */
  lemma ChunkingCovers(text: string, size: nat, overlap: int, i: nat)
    requires overlap >= 0 && i < |text|
    requires Spans(text, size, overlap).Some?
    ensures var s := Spans(text, size, overlap).value;
      exists k :: 0 <= k < |s| && s[k].lo <= i < s[k].hi && s[k].hi - s[k].lo <= size + 1
  {
    var s := Spans(text, size, overlap).value;
    ChunkingShape(text, size, overlap);
    forall k | 0 <= k < |s| - 1 ensures NoGapAt(s, k) {
      assert LinkedAt(text, size, overlap, s, k);
    }
    GaplessCovers(s, i);
    var k :| 0 <= k < |s| && s[k].lo <= i < s[k].hi;
  }

  lemma {:induction false} ChunksOfAt(text: string, spans: seq<Span>, k: nat)
    requires k < |spans|
    ensures ChunksOf(text, spans)[k] == Slice(text, spans[k])
    decreases |spans|
  {
    if k < |spans| - 1 {
      ChunksOfAt(text, spans[..|spans| - 1], k);
    }
  }

  /**
    Chunk k is exactly the characters text[lo..hi] of span k, and every
    span lies inside the text.
  */
  lemma ChunksAreSlices(text: string, size: nat, overlap: int)
    requires Chunk(text, size, overlap).Some?
    ensures var s := Spans(text, size, overlap).value;
      var c := Chunk(text, size, overlap).value;
      && |c| == |s|
      && forall k :: 0 <= k < |s| ==> s[k].lo <= s[k].hi <= |text| && c[k] == text[s[k].lo..s[k].hi]
  {
    var s := Spans(text, size, overlap).value;
    ChunkingShape(text, size, overlap);
    forall k | 0 <= k < |s|
      ensures s[k].lo <= s[k].hi <= |text|
      ensures Chunk(text, size, overlap).value[k] == text[s[k].lo..s[k].hi]
    {
      if k < |s| - 1 {
        assert LinkedAt(text, size, overlap, s, k);
      }
      ChunksOfAt(text, s, k);
    }
  }

  // ---------------------------------------------------------------------
  // When every cut makes progress

  lemma {:induction false} SpansFromDefinedWithoutOverlap(text: string, start: nat, size: nat, overlap: int)
    requires overlap <= 0
    ensures SpansFrom(text, start, size, overlap).Some?
    decreases |text| - start
  {
    if start < |text| && start + size < |text| {
      var next := CutPoint(text, start, size) + 1 - overlap;
      SpansFromDefinedWithoutOverlap(text, next, size, overlap);
    }
  }

  /** With no overlap (or a gap) between windows the loop always ends. */
  lemma SpansDefinedWithoutOverlap(text: string, size: nat, overlap: int)
    requires overlap <= 0
    ensures Spans(text, size, overlap).Some?
  {
    SpansFromDefinedWithoutOverlap(text, 0, size, overlap);
  }

  lemma {:induction false} SpansFromDefinedWithoutDots(text: string, start: nat, size: nat, overlap: int)
    requires '.' !in text && overlap <= size
    ensures SpansFrom(text, start, size, overlap).Some?
    decreases |text| - start
  {
    if start < |text| && start + size < |text| {
      var sp := CutPoint(text, start, size);
      SpansFromDefinedWithoutDots(text, sp + 1 - overlap, size, overlap);
    }
  }

  /** A text without '.' is hard-cut every size + 1 characters, which makes progress whenever overlap <= size. */
  lemma SpansDefinedWithoutDots(text: string, size: nat, overlap: int)
    requires '.' !in text && overlap <= size
    ensures Spans(text, size, overlap).Some?
  {
    SpansFromDefinedWithoutDots(text, 0, size, overlap);
  }

  /**
    With the default parameters a '.' close to the start of a window makes
    a cut that does not advance the window: for "a." followed by 999 letters
    the first cut is after index 1 and the next window would start at
    2 - 200 (`DefaultParametersSkipText` follows the source from there).
  */
  lemma DefaultParametersCutWithoutProgress()
    ensures var text := "a." + seq(999, _ => 'b');
      Spans(text, DefaultChunkSize, DefaultOverlap) == None
  {
    var text := "a." + seq(999, _ => 'b');
    assert |text| == 1001;
    var sp := CutPoint(text, 0, 1000);
    assert text[1] == '.';
    assert forall j :: 1 < j < |text| ==> text[j] == 'b';
    assert sp == 1;
  }

  /**
    With the default parameters a window whose last '.' is at offset 199 =
    overlap - 1 restarts at the same index: the source loop then appends
    text[0:200] again and again and never returns.
  */
  lemma DefaultParametersRepeatWindow()
    ensures var text := seq(199, _ => 'a') + "." + seq(801, _ => 'b');
      && |text| > DefaultChunkSize
      && CutPoint(text, 0, DefaultChunkSize) + 1 - DefaultOverlap == 0
      && Spans(text, DefaultChunkSize, DefaultOverlap) == None
  {
    var text := seq(199, _ => 'a') + "." + seq(801, _ => 'b');
    assert |text| == 1001;
    assert text[199] == '.';
    assert forall j :: 199 < j < |text| ==> text[j] == 'b';
    var sp := CutPoint(text, 0, 1000);
    assert sp == 199;
  }

  // ---------------------------------------------------------------------
  // The loop as written, with Python's bounds

  /**
    A slice or `rfind` bound i on a sequence of length n: a negative bound
    counts from the end, and the result is clamped to [0, n].
  */
  function PyBound(i: int, n: nat): (b: nat)
    ensures b <= n
    ensures 0 <= i <= n ==> b == i
  {
    if i < 0 then (if i + n < 0 then 0 else i + n)
    else if i > n then n
    else i
  }

  /** `text[i:j]`. */
  function PySlice(text: string, i: int, j: int): string
  {
    var lo, hi := PyBound(i, |text|), PyBound(j, |text|);
    if lo < hi then text[lo..hi] else ""
  }

  /** `text.rfind(c, i, j)`: -1 when the bounded range is empty. */
  function PyRFind(text: string, c: char, i: int, j: int): int
  {
    var lo, hi := PyBound(i, |text|), PyBound(j, |text|);
    if lo <= hi then RFind(text, c, lo, hi) else -1
  }

  /** The split point of the window [start, start + size): its last '.' by `rfind`, or its end. */
  function PySplitPoint(text: string, start: int, size: nat): int
  {
    var found := PyRFind(text, '.', start, start + size);
    if found == -1 then start + size else found
  }

  /**
    The `while` loop of `chunk_text` from window start `start`, which may be
    negative, with Python's slices and `rfind`; `None` when it has not
    returned within `fuel` turns.
  */
  function PyChunksFrom(text: string, start: int, size: nat, overlap: int, fuel: nat): Option<seq<string>>
    decreases fuel
  {
    if fuel == 0 then None
    else if start >= |text| then Some([])
    else if start + size >= |text| then Some([PySlice(text, start, |text|)])
    else
      var sp := PySplitPoint(text, start, size);
      match PyChunksFrom(text, sp + 1 - overlap, size, overlap, fuel - 1)
      case None => None
      case Some(rest) => Some([PySlice(text, start, sp + 1)] + rest)
  }

  /** `chunk_text(text, size, overlap)` as written, when it returns within `fuel` turns. */
  function PyChunk(text: string, size: nat, overlap: int, fuel: nat): Option<seq<string>>
  {
    if |text| <= size then Some([text]) else PyChunksFrom(text, 0, size, overlap, fuel)
  }

  /** Chunking one more span in front adds its chunk in front. */
  lemma ChunksOfCons(text: string, sp: Span, rest: seq<Span>)
    ensures ChunksOf(text, [sp] + rest) == [Slice(text, sp)] + ChunksOf(text, rest)
  {
    var spans := [sp] + rest;
    forall k | 0 <= k < |spans|
      ensures ChunksOf(text, spans)[k] == ([Slice(text, sp)] + ChunksOf(text, rest))[k]
    {
      ChunksOfAt(text, spans, k);
      if k > 0 {
        ChunksOfAt(text, rest, k - 1);
      }
    }
  }

  /** Inside the text, Python's `rfind` cut is `CutPoint`. */
  lemma PyCutPoint(text: string, start: nat, size: nat)
    requires start + size < |text|
    ensures PySplitPoint(text, start, size) == CutPoint(text, start, size)
  {
  }

  /**
    One cut of the loop as written, from a start inside the text: it emits
    the text up to and including the window's last '.' (`CutPoint`), then
    the chunks from the next start on.
  */
  lemma PyCutChunk(text: string, start: nat, size: nat, overlap: int, fuel: nat, rest: seq<string>)
    requires start + size < |text| && fuel > 0
    requires PyChunksFrom(text, CutPoint(text, start, size) + 1 - overlap, size, overlap, fuel - 1) == Some(rest)
    ensures PyChunksFrom(text, start, size, overlap, fuel)
         == Some([text[start..CutPoint(text, start, size) + 1]] + rest)
  {
    PyCutPoint(text, start, size);
  }

  /** The same step in terms of spans: the cut's span is chunked in front of the rest. */
  lemma PyCutStep(text: string, start: nat, size: nat, overlap: int, fuel: nat, spans: seq<Span>, rest: seq<Span>)
    requires start + size < |text| && fuel > 0
    requires PyChunksFrom(text, CutPoint(text, start, size) + 1 - overlap, size, overlap, fuel - 1)
          == Some(ChunksOf(text, rest))
    requires spans == [Span(start, CutPoint(text, start, size) + 1)] + rest
    ensures PyChunksFrom(text, start, size, overlap, fuel) == Some(ChunksOf(text, spans))
  {
    var cut := CutPoint(text, start, size);
    PyCutChunk(text, start, size, overlap, fuel, ChunksOf(text, rest));
    ChunksOfCons(text, Span(start, cut + 1), rest);
    assert Slice(text, Span(start, cut + 1)) == text[start..cut + 1];
  }

  /** The last turn of the loop as written: the rest of the text is the final chunk. */
  lemma PyTailStep(text: string, start: nat, size: nat, overlap: int, fuel: nat)
    requires start < |text| <= start + size && fuel > 0
    ensures PyChunksFrom(text, start, size, overlap, fuel) == Some(ChunksOf(text, [Span(start, |text|)]))
  {
    assert [Span(start, |text|)][..0] == [];
    assert ChunksOf(text, [Span(start, |text|)]) == [text[start..|text|]];
    assert PySlice(text, start, |text|) == text[start..|text|];
  }

  /** From a start inside the text, the loop as written emits the chunks of `SpansFrom`. */
  lemma {:induction false} PyChunksFromAgrees(text: string, start: nat, size: nat, overlap: int, fuel: nat, spans: seq<Span>)
    requires SpansFrom(text, start, size, overlap) == Some(spans) && fuel > |spans|
    ensures PyChunksFrom(text, start, size, overlap, fuel) == Some(ChunksOf(text, spans))
    decreases |text| - start, 1
  {
    if start >= |text| {
      assert spans == [] && PyChunksFrom(text, start, size, overlap, fuel) == Some([]);
    } else if start + size >= |text| {
      assert spans == [Span(start, |text|)];
      PyTailStep(text, start, size, overlap, fuel);
    } else {
      PyCutAgrees(text, start, size, overlap, fuel, spans);
    }
  }

  /** The same from a window that is cut: the cut's chunk, then the chunks from the next start on. */
  lemma {:induction false} PyCutAgrees(text: string, start: nat, size: nat, overlap: int, fuel: nat, spans: seq<Span>)
    requires start + size < |text|
    requires SpansFrom(text, start, size, overlap) == Some(spans) && fuel > |spans|
    ensures PyChunksFrom(text, start, size, overlap, fuel) == Some(ChunksOf(text, spans))
    decreases |text| - start, 0
  {
    var sp := CutPoint(text, start, size);
    var next := sp + 1 - overlap;
    var rest := SpansFromStep(text, start, size, overlap, sp, next, spans);
    PyChunksFromAgrees(text, next, size, overlap, fuel - 1, rest);
    PyCutStep(text, start, size, overlap, fuel, spans, rest);
  }


  /**
    Wherever `Spans` is defined, the loop as written returns, within one
    turn more than there are chunks, exactly the chunks of `Chunk`.
  */
  lemma PyChunkAgrees(text: string, size: nat, overlap: int, fuel: nat)
    requires Spans(text, size, overlap).Some?
    requires fuel > |Spans(text, size, overlap).value|
    ensures PyChunk(text, size, overlap, fuel) == Chunk(text, size, overlap)
  {
    if |text| > size {
      PyChunksFromAgrees(text, 0, size, overlap, fuel, Spans(text, size, overlap).value);
    } else {
      assert [Span(0, |text|)][..0] == [];
      assert ChunksOf(text, [Span(0, |text|)]) == [text[0..|text|]];
      assert text[0..|text|] == text;
    }
  }

  /**
    With the default parameters, on "a." followed by 999 letters the loop as
    written cuts "a.", moves to start 2 - 200, where `rfind` over
    [-198 + 1001, 802) finds nothing and the slice text[-198:803] is empty,
    then moves to 603 and ends: characters 2 to 602 are in no chunk.
  */
  lemma DefaultParametersSkipText(fuel: nat)
    requires fuel >= 3
    ensures var text := "a." + seq(999, _ => 'b');
      PyChunk(text, DefaultChunkSize, DefaultOverlap, fuel) == Some(["a.", "", text[603..]])
  {
    var text := "a." + seq(999, _ => 'b');
    assert |text| == 1001;
    assert text[1] == '.';
    assert forall j :: 1 < j < |text| ==> text[j] == 'b';
    var d := RFind(text, '.', 0, 1000);
    assert d == 1;
    assert PyRFind(text, '.', 0, 1000) == 1;
    assert PySlice(text, 0, 2) == text[0..2] == "a.";
    assert PyRFind(text, '.', -198, 802) == -1;
    assert PySlice(text, -198, 803) == "";
    assert PySlice(text, 603, |text|) == text[603..|text|] == text[603..];
    assert PyChunksFrom(text, 603, 1000, 200, fuel - 2) == Some([text[603..]]);
    assert PyChunksFrom(text, -198, 1000, 200, fuel - 1) == Some([""] + [text[603..]]);
    assert [""] + [text[603..]] == ["", text[603..]];
    assert ["a."] + ["", text[603..]] == ["a.", "", text[603..]];
  }

  /**
    With the default parameters, on 199 letters, a '.' and 801 letters the
    loop as written cuts at index 199 and restarts at 199 + 1 - 200 = 0: it
    has not returned after any number of turns.
  */
  lemma {:induction false} DefaultParametersNeverReturn(fuel: nat)
    ensures var text := seq(199, _ => 'a') + "." + seq(801, _ => 'b');
      PyChunk(text, DefaultChunkSize, DefaultOverlap, fuel) == None
  {
    var text := seq(199, _ => 'a') + "." + seq(801, _ => 'b');
    assert |text| == 1001;
    if fuel > 0 {
      DefaultParametersRepeatWindow();
      assert PyRFind(text, '.', 0, 1000) == RFind(text, '.', 0, 1000);
      DefaultParametersNeverReturn(fuel - 1);
    }
  }


  // ---------------------------------------------------------------------
  // The loop

  /** One turn of the loop: a cut that makes progress, followed by the chunks from the next window on. */
  lemma SpansFromStep(text: string, start: nat, size: nat, overlap: int, sp: nat, next: int, rest: seq<Span>)
    returns (rest': seq<Span>)
    requires start + size < |text| && sp == CutPoint(text, start, size) && next == sp + 1 - overlap
    requires SpansFrom(text, start, size, overlap) == Some(rest)
    ensures next > start
    ensures SpansFrom(text, next, size, overlap) == Some(rest')
    ensures rest == [Span(start, sp + 1)] + rest'
  {
    rest' := SpansFrom(text, next, size, overlap).value;
  }

  lemma SpansNonEmpty(text: string, size: nat, overlap: int)
    requires Spans(text, size, overlap).Some?
    ensures |Spans(text, size, overlap).value| >= 1
  {
    ChunkingShape(text, size, overlap);
  }

  lemma ChunkIsChunksOfSpans(text: string, size: nat, overlap: int)
    requires Spans(text, size, overlap).Some?
    ensures Chunk(text, size, overlap) == Some(ChunksOf(text, Spans(text, size, overlap).value))
  {
  }

  lemma ChunksOfAppend(text: string, done: seq<Span>, sp: Span)
    requires sp.lo <= sp.hi <= |text|
    ensures ChunksOf(text, done + [sp]) == ChunksOf(text, done) + [text[sp.lo..sp.hi]]
  {
    assert (done + [sp])[..|done|] == done;
  }

  /** The last turn of the loop: the rest of the text fits the window and is the final chunk. */
  lemma TailStep(text: string, size: nat, overlap: int, start: nat, done: seq<Span>, rest: seq<Span>)
    requires start < |text| <= start + size
    requires SpansFrom(text, start, size, overlap) == Some(rest)
    ensures done + rest == done + [Span(start, |text|)]
    ensures ChunksOf(text, done + rest) == ChunksOf(text, done) + [text[start..]]
  {
    assert rest == [Span(start, |text|)];
    assert text[start..] == text[start..|text|];
    ChunksOfAppend(text, done, Span(start, |text|));
  }

  /** A turn that cuts: the cut is the next span and the loop goes on from `next`. */
  lemma CutStep(text: string, size: nat, overlap: int, start: nat, sp: nat, next: int, done: seq<Span>, rest: seq<Span>)
    returns (rest': seq<Span>)
    requires start + size < |text| && sp == CutPoint(text, start, size) && next == sp + 1 - overlap
    requires SpansFrom(text, start, size, overlap) == Some(rest)
    ensures next > start
    ensures SpansFrom(text, next, size, overlap) == Some(rest')
    ensures done + rest == (done + [Span(start, sp + 1)]) + rest'
    ensures ChunksOf(text, done + [Span(start, sp + 1)]) == ChunksOf(text, done) + [text[start..sp + 1]]
  {
    rest' := SpansFromStep(text, start, size, overlap, sp, next, rest);
    assert done + ([Span(start, sp + 1)] + rest') == (done + [Span(start, sp + 1)]) + rest';
    ChunksOfAppend(text, done, Span(start, sp + 1));
  }

  /**
    `chunk_text`: the loop of the source, proved to produce `Chunk` whenever
    every cut makes progress, and so to terminate.
  */
  method ChunkText(text: string, size: nat, overlap: int) returns (chunks: seq<string>)
    requires Spans(text, size, overlap).Some?
    ensures Chunk(text, size, overlap) == Some(chunks)
    ensures |text| <= size ==> chunks == [text]
    ensures |chunks| >= 1
  {
    ChunkIsChunksOfSpans(text, size, overlap);
    SpansNonEmpty(text, size, overlap);
    if |text| <= size {
      assert Spans(text, size, overlap).value == [Span(0, |text|)];
      assert text[0..|text|] == text;
      ChunksOfAppend(text, [], Span(0, |text|));
      assert [] + [Span(0, |text|)] == [Span(0, |text|)];
      assert ChunksOf(text, []) == [];
      assert ChunksOf(text, [Span(0, |text|)]) == [text];
      assert Chunk(text, size, overlap) == Some(ChunksOf(text, [Span(0, |text|)]));
      return [text];
    }
    assert Spans(text, size, overlap) == SpansFrom(text, 0, size, overlap);
    chunks := CutWindows(text, size, overlap);
  }

  /** The `while` loop of `chunk_text`, for a text longer than one window. */
  method CutWindows(text: string, size: nat, overlap: int) returns (chunks: seq<string>)
    requires SpansFrom(text, 0, size, overlap).Some?
    ensures chunks == ChunksOf(text, SpansFrom(text, 0, size, overlap).value)
  {
    ghost var all := SpansFrom(text, 0, size, overlap).value;
    ghost var done: seq<Span> := [];
    ghost var rest := all;
    chunks := [];
    var start: nat := 0;
    while start < |text|
      invariant SpansFrom(text, start, size, overlap) == Some(rest)
      invariant all == done + rest
      invariant chunks == ChunksOf(text, done)
      decreases |text| - start
    {
      var end := start + size;
      if end >= |text| {
        TailStep(text, size, overlap, start, done, rest);
        done, rest := all, [];
        chunks := chunks + [text[start..]];
        break;
      }
      var splitPoint := RFind(text, '.', start, end);
      if splitPoint == -1 {
        splitPoint := end;
      }
      var next := splitPoint + 1 - overlap;
      ghost var rest' := CutStep(text, size, overlap, start, splitPoint, next, done, rest);
      done, rest := done + [Span(start, splitPoint + 1)], rest';
      chunks := chunks + [text[start..splitPoint + 1]];
      start := next;
    }
    assert done == all;
  }

  // ---------------------------------------------------------------------
  // Extraction

  /** `os.path.splitext(p)[1]` has, before its dot, a character other than '.' in the file name. */
  predicate HasNonDotBefore(name: string, d: nat)
    requires d <= |name|
  {
    exists i :: 0 <= i < d && name[i] != '.'
  }

  /**
    `os.path.splitext(p)[1]` on a POSIX path: from the last '.' of the last
    path component, unless only dots precede it there (a hidden file such
    as ".txt" has no extension); "" when there is no such dot.
  */
  function SplitExt(p: string): string
  {
    NameExt(BaseName(p))
  }

  /** The extension of a file name, as `SplitExt` takes it. */
  function NameExt(name: string): string
  {
    var d := RFind(name, '.', 0, |name|);
    if d > 0 && HasNonDotBefore(name, d) then name[d..] else ""
  }

  datatype ExtractError = UnsupportedType(ext: string) | Unreadable

  /**
    `extract_text`: a dispatch on the extension of the lower-cased path.
    Only ".txt" is accepted; its text is what reading the file gives
    (`contents`, `None` when the read fails).
  */
  function ExtractText(path: string, contents: Option<string>): Result<string, ExtractError>
  {
    var ext := SplitExt(Lower(path));
    if ext == ".txt" then
      if contents.Some? then Ok(contents.value) else Err(Unreadable)
    else Err(UnsupportedType(ext))
  }

  /** A file name that ends in ".txt" and is not only dots before it. */
  ghost predicate TxtName(name: string)
  {
    |name| >= 4 && name[|name| - 4..] == ".txt" && HasNonDotBefore(name, |name| - 4)
  }

  /** The file name ends in ".txt", in any case, and is not only dots before it. */
  ghost predicate NamedTxt(path: string)
  {
    TxtName(BaseName(Lower(path)))
  }

  /** In a name ending in ".txt" the last '.' is the one that starts ".txt". */
  lemma TxtNameLastDot(name: string)
    requires |name| >= 4 && name[|name| - 4..] == ".txt"
    ensures RFind(name, '.', 0, |name|) == |name| - 4
  {
    var n := |name|;
    assert name[n - 4] == '.' by { assert name[n - 4..][0] == '.'; }
    assert name[n - 3] != '.' && name[n - 2] != '.' && name[n - 1] != '.' by {
      assert name[n - 4..][1] == 't' && name[n - 4..][2] == 'x' && name[n - 4..][3] == 't';
    }
  }

  lemma TxtNameHasTxtExtension(name: string)
    requires TxtName(name)
    ensures NameExt(name) == ".txt"
  {
    TxtNameLastDot(name);
  }

  lemma TxtExtensionIsTxtName(name: string)
    requires NameExt(name) == ".txt"
    ensures TxtName(name)
  {
    var d := RFind(name, '.', 0, |name|);
    assert d > 0 && HasNonDotBefore(name, d) && name[d..] == ".txt";
    assert |name| - d == 4;
  }

  /**
    Extraction succeeds exactly for a readable file whose name ends in
    ".txt" case-insensitively, and then returns the file's text; every
    other name is refused as an unsupported type.
  */
  lemma ExtractAcceptsOnlyTxt(path: string, contents: Option<string>)
    ensures ExtractText(path, contents).Ok? <==> NamedTxt(path) && contents.Some?
    ensures ExtractText(path, contents).Ok? ==> ExtractText(path, contents).value == contents.value
    ensures !NamedTxt(path) ==> ExtractText(path, contents).Err? && ExtractText(path, contents).error.UnsupportedType?
  {
    var name := BaseName(Lower(path));
    if TxtName(name) {
      TxtNameHasTxtExtension(name);
    }
    if NameExt(name) == ".txt" {
      TxtExtensionIsTxtName(name);
    }
  }
}
