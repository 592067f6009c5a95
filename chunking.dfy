/** The chunker (`backend/utils/chunking_service.py`): text normalisation,
    fixed-size overlapping windows with deterministic ids and offsets, and
    statistics over a chunk list. */
module Chunking {
  import opened Wrappers
  import opened Text

  // ---------------------------------------------------------------------
  // Text normalisation (`_clean_text`)
  // ---------------------------------------------------------------------

  /** Whitespace other than a newline: what may not touch a line break in
      normalised text. */
  predicate InlineSpace(c: char) {
    IsSpace(c) && c != '\n'
  }

  predicate DoubleSpace(a: char, b: char) {
    a == ' ' && b == ' '
  }

  /** A line break with whitespace next to it, on either side. */
  predicate PaddedBreak(a: char, b: char) {
    (a == '\n' && InlineSpace(b)) || (InlineSpace(a) && b == '\n')
  }

  /** The characters at `i` and `i + 1` form a `bad` pair. */
  ghost predicate BadPairAt(s: string, i: nat, bad: (char, char) -> bool)
    requires i < |s| - 1
  {
    bad(s[i], s[i + 1])
  }

  /** No two adjacent characters of `s` form a `bad` pair. */
  ghost predicate NoBadPair(s: string, bad: (char, char) -> bool) {
    forall i: nat :: i < |s| - 1 ==> !BadPairAt(s, i, bad)
  }

  /** Every line (piece between newlines) has no surrounding whitespace. */
  ghost predicate LinesStripped(s: string) {
    forall line :: line in Split(s, '\n') ==> IsStripped(line)
  }

  /** The first step: `'\n'.join(line.strip() for line in text.split('\n'))`. */
  function StripLines(text: string): string {
    var lines := Split(text, '\n');
    Join(seq(|lines|, i requires 0 <= i < |lines| => Strip(lines[i])), "\n")
  }

  /** `while '  ' in text: text = text.replace('  ', ' ')`. */
  function CollapseSpaces(text: string): (r: string)
    ensures !Contains(r, "  ")
    decreases |text|
  {
    if Contains(text, "  ") then
      ReplaceAllShrinks(text, "  ", " ");
      CollapseSpaces(ReplaceAll(text, "  ", " "))
    else
      text
  }

  /** `while '\n\n\n' in text: text = text.replace('\n\n\n', '\n\n')`. */
  function CollapseNewlines(text: string): (r: string)
    ensures !Contains(r, "\n\n\n")
    decreases |text|
  {
    if Contains(text, "\n\n\n") then
      ReplaceAllShrinks(text, "\n\n\n", "\n\n");
      CollapseNewlines(ReplaceAll(text, "\n\n\n", "\n\n"))
    else
      text
  }

  /** What `_clean_text` returns. */
  function Cleaned(text: string): string {
    Strip(CollapseNewlines(CollapseSpaces(StripLines(text))))
  }

  /** `_clean_text`, loop for loop. */
  method CleanText(text: string) returns (r: string)
    ensures r == Cleaned(text)
  {
    r := StripLines(text);
    ghost var lines := r;
    while Contains(r, "  ")
      invariant CollapseSpaces(r) == CollapseSpaces(lines)
      decreases |r|
    {
      ReplaceAllShrinks(r, "  ", " ");
      r := ReplaceAll(r, "  ", " ");
    }
    ghost var spaced := r;
    while Contains(r, "\n\n\n")
      invariant CollapseNewlines(r) == CollapseNewlines(spaced)
      decreases |r|
    {
      ReplaceAllShrinks(r, "\n\n\n", "\n\n");
      r := ReplaceAll(r, "\n\n\n", "\n\n");
    }
    r := Strip(r);
  }

  /** A slice keeps the absence of bad pairs. */
  lemma NoBadPairSlice(s: string, a: nat, b: nat, bad: (char, char) -> bool)
    requires a <= b <= |s| && NoBadPair(s, bad)
    ensures NoBadPair(s[a..b], bad)
  {
    forall i: nat | i < b - a - 1 ensures !BadPairAt(s[a..b], i, bad) {
      assert s[a..b][i] == s[a + i] && s[a..b][i + 1] == s[a + i + 1];
      assert !BadPairAt(s, a + i, bad);
    }
  }

  /** A slice keeps the absence of a pattern. */
  lemma NotContainsSlice(s: string, a: nat, b: nat, pat: string)
    requires a <= b <= |s| && !Contains(s, pat)
    ensures !Contains(s[a..b], pat)
  {
    if Contains(s[a..b], pat) {
      var i: nat :| i <= |s[a..b]| && OccursAt(s[a..b], pat, i);
      forall k | 0 <= k < |pat| ensures s[a + i + k] == pat[k] {
        assert s[a..b][i..i + |pat|][k] == pat[k];
      }
      assert s[a + i..a + i + |pat|] == pat;
      assert OccursAt(s, pat, a + i);
      assert false;
    }
  }

  /** `"  " in s` is a pair of adjacent spaces. */
  lemma NoDoubleSpaceIff(s: string)
    ensures !Contains(s, "  ") <==> NoBadPair(s, DoubleSpace)
  {
    if Contains(s, "  ") {
      var i: nat :| i <= |s| && OccursAt(s, "  ", i);
      assert s[i..i + 2][0] == s[i] && s[i..i + 2][1] == s[i + 1];
      assert BadPairAt(s, i, DoubleSpace);
    }
    if !NoBadPair(s, DoubleSpace) {
      var i: nat :| i < |s| - 1 && BadPairAt(s, i, DoubleSpace);
      assert s[i] == ' ' && s[i + 1] == ' ';
      assert s[i..i + 2] == [s[i], s[i + 1]];
      assert OccursAt(s, "  ", i);
    }
  }

  /** Replacing `pat` by a `rep` that starts and ends with the same
      characters as `pat`, and has no bad pair itself, creates no bad pair. */
  lemma {:induction false} ReplaceAllKeepsPairs(s: string, pat: string, rep: string, bad: (char, char) -> bool)
    requires |pat| > 0 && |rep| > 0
    requires rep[0] == pat[0] && rep[|rep| - 1] == pat[|pat| - 1]
    requires NoBadPair(rep, bad) && NoBadPair(s, bad)
    ensures NoBadPair(ReplaceAll(s, pat, rep), bad)
    decreases |s|
  {
    var r := ReplaceAll(s, pat, rep);
    if |s| < |pat| {
    } else if s[..|pat|] == pat {
      var t := s[|pat|..];
      NoBadPairSlice(s, |pat|, |s|, bad);
      assert s[|pat|..|s|] == t;
      ReplaceAllKeepsPairs(t, pat, rep, bad);
      var rt := ReplaceAll(t, pat, rep);
      assert r == rep + rt;
      if |t| > 0 {
        ReplaceAllHead(t, pat, rep);
        assert s[|pat| - 1] == pat[|pat| - 1] && s[|pat|] == t[0];
        assert !BadPairAt(s, |pat| - 1, bad);
      }
      forall i: nat | i < |r| - 1 ensures !BadPairAt(r, i, bad) {
        if i < |rep| - 1 {
          assert r[i] == rep[i] && r[i + 1] == rep[i + 1];
          assert !BadPairAt(rep, i, bad);
        } else if i == |rep| - 1 {
          assert r[i] == rep[|rep| - 1] && r[i + 1] == rt[0];
        } else {
          assert r[i] == rt[i - |rep|] && r[i + 1] == rt[i - |rep| + 1];
          assert !BadPairAt(rt, i - |rep|, bad);
        }
      }
    } else {
      var t := s[1..];
      NoBadPairSlice(s, 1, |s|, bad);
      assert s[1..|s|] == t;
      ReplaceAllKeepsPairs(t, pat, rep, bad);
      var rt := ReplaceAll(t, pat, rep);
      assert r == [s[0]] + rt;
      if |t| > 0 {
        ReplaceAllHead(t, pat, rep);
        assert !BadPairAt(s, 0, bad);
      }
      forall i: nat | i < |r| - 1 ensures !BadPairAt(r, i, bad) {
        if i > 0 {
          assert r[i] == rt[i - 1] && r[i + 1] == rt[i];
          assert !BadPairAt(rt, i - 1, bad);
        }
      }
    }
  }

  /** `CollapseSpaces` keeps line breaks free of surrounding whitespace. */
  lemma {:induction false} CollapseSpacesKeepsBreaks(s: string)
    requires NoBadPair(s, PaddedBreak)
    ensures NoBadPair(CollapseSpaces(s), PaddedBreak)
    decreases |s|
  {
    if Contains(s, "  ") {
      ReplaceAllShrinks(s, "  ", " ");
      ReplaceAllKeepsPairs(s, "  ", " ", PaddedBreak);
      CollapseSpacesKeepsBreaks(ReplaceAll(s, "  ", " "));
    }
  }

  /** `CollapseNewlines` keeps a pair property that newline pairs satisfy. */
  lemma {:induction false} CollapseNewlinesKeepsPairs(s: string, bad: (char, char) -> bool)
    requires !bad('\n', '\n') && NoBadPair(s, bad)
    ensures NoBadPair(CollapseNewlines(s), bad)
    decreases |s|
  {
    if Contains(s, "\n\n\n") {
      ReplaceAllShrinks(s, "\n\n\n", "\n\n");
      assert NoBadPair("\n\n", bad);
      ReplaceAllKeepsPairs(s, "\n\n\n", "\n\n", bad);
      CollapseNewlinesKeepsPairs(ReplaceAll(s, "\n\n\n", "\n\n"), bad);
    }
  }

  /** Joining stripped, newline-free lines with newlines puts no whitespace
      next to a line break, nor at either end. */
  lemma {:induction false} JoinStrippedLines(lines: seq<string>)
    requires forall i :: 0 <= i < |lines| ==> IsStripped(lines[i]) && '\n' !in lines[i]
    ensures var s := Join(lines, "\n");
      NoBadPair(s, PaddedBreak) && (s != [] ==> !InlineSpace(s[0]) && !InlineSpace(s[|s| - 1]))
    decreases |lines|
  {
    if |lines| > 1 {
      var a, b := lines[0], Join(lines[1..], "\n");
      JoinStrippedLines(lines[1..]);
      var s := Join(lines, "\n");
      assert s == a + "\n" + b;
      forall i: nat | i < |s| - 1 ensures !BadPairAt(s, i, PaddedBreak) {
        if i < |a| - 1 {
          assert s[i] == a[i] && s[i + 1] == a[i + 1];
          assert a[i] in a && a[i + 1] in a;
        } else if i == |a| - 1 {
          assert s[i] == a[|a| - 1];
        } else if i == |a| {
          assert s[i + 1] == b[0];
        } else {
          assert s[i] == b[i - |a| - 1] && s[i + 1] == b[i - |a|];
          assert !BadPairAt(b, i - |a| - 1, PaddedBreak);
        }
      }
    } else if |lines| == 1 {
      var a := lines[0];
      forall i: nat | i < |a| - 1 ensures !BadPairAt(a, i, PaddedBreak) {
        assert a[i] in a && a[i + 1] in a;
      }
    }
  }

  /** Text whose line breaks have no whitespace beside them, and whose ends
      are not inline whitespace, consists of stripped lines. */
  lemma {:induction false} UnpaddedLinesStripped(s: string)
    requires NoBadPair(s, PaddedBreak)
    requires s != [] ==> !InlineSpace(s[0]) && !InlineSpace(s[|s| - 1])
    ensures LinesStripped(s)
    decreases |s|
  {
    if '\n' in s {
      var i := IndexOf(s, '\n');
      var t := s[i + 1..];
      NoBadPairSlice(s, i + 1, |s|, PaddedBreak);
      assert s[i + 1..|s|] == t;
      if t != [] {
        assert !BadPairAt(s, i, PaddedBreak);
        assert t[|t| - 1] == s[|s| - 1];
      }
      UnpaddedLinesStripped(t);
      var head := s[..i];
      if head != [] {
        assert head[0] == s[0] && head[0] in head;
        assert !BadPairAt(s, i - 1, PaddedBreak);
        assert head[|head| - 1] == s[i - 1] && head[|head| - 1] in head;
      }
      assert Split(s, '\n') == [head] + Split(t, '\n');
    } else if s != [] {
      assert s[0] in s && s[|s| - 1] in s;
      assert Split(s, '\n') == [s];
    }
  }

  /** The stripped lines of the first step. */
  lemma StripLinesShape(text: string)
    ensures var s := StripLines(text);
      NoBadPair(s, PaddedBreak) && (s != [] ==> !InlineSpace(s[0]) && !InlineSpace(s[|s| - 1]))
  {
    var lines := Split(text, '\n');
    var stripped := seq(|lines|, i requires 0 <= i < |lines| => Strip(lines[i]));
    forall i | 0 <= i < |stripped| ensures IsStripped(stripped[i]) && '\n' !in stripped[i] {
      assert lines[i] in lines;
      StripKeepsOut(lines[i], '\n');
    }
    JoinStrippedLines(stripped);
  }

  /** Before the final strip: no double space, no three newlines, and no
      whitespace beside a line break. */
  lemma CollapsedShape(text: string)
    ensures var s := CollapseNewlines(CollapseSpaces(StripLines(text)));
      !Contains(s, "  ") && !Contains(s, "\n\n\n") && NoBadPair(s, PaddedBreak)
  {
    var s1 := StripLines(text);
    StripLinesShape(text);
    var s2 := CollapseSpaces(s1);
    CollapseSpacesKeepsBreaks(s1);
    NoDoubleSpaceIff(s2);
    var s3 := CollapseNewlines(s2);
    CollapseNewlinesKeepsPairs(s2, PaddedBreak);
    CollapseNewlinesKeepsPairs(s2, DoubleSpace);
    NoDoubleSpaceIff(s3);
  }

  /** Normalised text has no double space, no run of three newlines, no
      whitespace at either end, and no line with surrounding whitespace. */
  lemma CleanedShape(text: string)
    ensures var r := Cleaned(text);
      !Contains(r, "  ") && !Contains(r, "\n\n\n") && IsStripped(r) && LinesStripped(r)
  {
    var s3 := CollapseNewlines(CollapseSpaces(StripLines(text)));
    CollapsedShape(text);
    var a := StripStart(s3);
    var r := Strip(s3);
    var b := a + |r|;
    assert r == s3[a..b];
    NotContainsSlice(s3, a, b, "  ");
    NotContainsSlice(s3, a, b, "\n\n\n");
    NoBadPairSlice(s3, a, b, PaddedBreak);
    UnpaddedLinesStripped(r);
  }

  /** Normalising twice is normalising once. */
  lemma CleanedIdempotent(text: string)
    ensures Cleaned(Cleaned(text)) == Cleaned(text)
  {
    var c := Cleaned(text);
    CleanedShape(text);
    var lines := Split(c, '\n');
    var stripped := seq(|lines|, i requires 0 <= i < |lines| => Strip(lines[i]));
    forall i | 0 <= i < |lines| ensures stripped[i] == lines[i] {
      assert lines[i] in lines;
      StripStripped(lines[i]);
    }
    assert stripped == lines;
    JoinSplit(c, '\n');
    assert StripLines(c) == c;
    StripStripped(c);
  }

  // ---------------------------------------------------------------------
  // The service and its windows (`__init__`, `chunk_text`)
  // ---------------------------------------------------------------------

  /** A chunker: the window size and the overlap between windows. */
  datatype ChunkingService = ChunkingService(chunkSize: int, chunkOverlap: int)

  /** What the constructor admits, for positive window sizes. */
  predicate ValidService(c: ChunkingService) {
    0 < c.chunkSize && c.chunkOverlap < c.chunkSize
  }

  /** `ChunkingService(chunk_size, chunk_overlap)`: refused exactly when the
      overlap is not smaller than the window. */
  function NewChunkingService(chunkSize: int, chunkOverlap: int): (r: Result<ChunkingService>)
    requires chunkSize > 0
    ensures r.Err? <==> chunkOverlap >= chunkSize
    ensures r.Err? ==> r.error.ValueError?
    ensures r.Ok? ==> (ValidService(r.value)
      && r.value.chunkSize == chunkSize && r.value.chunkOverlap == chunkOverlap)
  {
    if chunkOverlap >= chunkSize then Err(ValueError("chunk_overlap must be less than chunk_size"))
    else Ok(ChunkingService(chunkSize, chunkOverlap))
  }

  /** How far `start` moves from one window to the next. */
  function Step(c: ChunkingService): (step: nat)
    requires ValidService(c)
    ensures step > 0
  {
    c.chunkSize - c.chunkOverlap
  }

  /** The metadata attached to every chunk. */
  datatype ChunkMetadata = ChunkMetadata(
    sessionId: string,
    chunkNumber: nat,
    startChar: nat,
    endChar: nat,
    totalChars: nat)

  /** `DocumentChunk` as `chunk_text` fills it (no embedding yet). */
  datatype DocumentChunk = DocumentChunk(id: string, text: string, metadata: ChunkMetadata)

  /** The most chunks a successful call returns. */
  const MaxChunks := 10000

  /** `f"{session_id}_chunk_{chunk_number}"`. */
  function ChunkId(sessionId: string, k: nat): string {
    sessionId + "_chunk_" + NatToString(k)
  }

  /** Chunk ids of one session are distinct. */
  lemma ChunkIdInjective(sessionId: string, j: nat, k: nat)
    requires ChunkId(sessionId, j) == ChunkId(sessionId, k)
    ensures j == k
  {
    var p := sessionId + "_chunk_";
    assert ChunkId(sessionId, j)[|p|..] == NatToString(j);
    assert ChunkId(sessionId, k)[|p|..] == NatToString(k);
    NatToStringInjective(j, k);
  }

  /** The end of the window that starts at `start`, clipped to the text. */
  function WindowEnd(t: string, start: nat, size: nat): (e: nat)
    requires start <= |t|
    ensures start <= e <= |t| && e - start <= size
  {
    if start + size <= |t| then start + size else |t|
  }

  /** `text[start:start + chunk_size]`. */
  function Window(t: string, start: nat, size: nat): string
    requires start <= |t|
  {
    t[start..WindowEnd(t, start, size)]
  }

  /** The loop goes on past `start`: the window there exists and is not all
      whitespace. */
  predicate Emits(c: ChunkingService, t: string, start: nat)
    requires ValidService(c)
  {
    start < |t| && !BlankBetween(t, start, WindowEnd(t, start, c.chunkSize))
  }

  /** `t[a:b]` is all whitespace, said on positions of `t`. */
  predicate BlankBetween(t: string, a: nat, b: nat)
    requires a <= b <= |t|
  {
    forall i :: a <= i < b ==> IsSpace(t[i])
  }

  /** The loop's test `not chunk_text.strip()` on the window is the blank
      test on its positions. */
  lemma WindowBlank(t: string, a: nat, b: nat)
    requires a <= b <= |t|
    ensures Strip(t[a..b]) == [] <==> BlankBetween(t, a, b)
  {
    StripEmptyIffBlank(t[a..b]);
    assert forall i :: a <= i < b ==> t[a..b][i - a] == t[i];
  }

  /** The chunk the loop builds for the window at `start`, numbered `k`. */
  function ChunkAt(sessionId: string, t: string, start: nat, size: nat, k: nat): DocumentChunk
    requires start <= |t|
  {
    var w := Window(t, start, size);
    DocumentChunk(ChunkId(sessionId, k), Strip(w), ChunkMetadata(sessionId, k, start, start + size, |w|))
  }

  /** The window starts the loop visits from `start` on, before the
      10,000-chunk check: `start`, `start + step`, … while the window there
      exists and is not all whitespace. */
  function Starts(c: ChunkingService, t: string, start: nat): seq<nat>
    requires ValidService(c)
    decreases |t| - start
  {
    if !Emits(c, t, start) then [] else [start] + Starts(c, t, start + Step(c))
  }

  /** The chunks built at the given window starts, numbered from 0. */
  function ChunksAt(c: ChunkingService, t: string, sessionId: string, starts: seq<nat>): (r: seq<DocumentChunk>)
    requires ValidService(c)
    requires forall i :: 0 <= i < |starts| ==> starts[i] <= |t|
    ensures |r| == |starts|
  {
    seq(|starts|, i requires 0 <= i < |starts| => ChunkAt(sessionId, t, starts[i], c.chunkSize, i))
  }

  /** Every window start the loop visits emits a chunk. */
  lemma {:induction false} StartsEmit(c: ChunkingService, t: string, start: nat)
    requires ValidService(c)
    ensures forall i :: 0 <= i < |Starts(c, t, start)| ==> Emits(c, t, Starts(c, t, start)[i])
    decreases |t| - start
  {
    if Emits(c, t, start) {
      StartsEmit(c, t, start + Step(c));
      var rest := Starts(c, t, start + Step(c));
      assert Starts(c, t, start) == [start] + rest;
    }
  }

  /** The outcome of the window loop over a cleaned text `t`: every chunk,
      or the 10,000-chunk error. */
  function WindowsSpec(c: ChunkingService, t: string, sessionId: string): (r: Result<seq<DocumentChunk>>)
    requires ValidService(c)
  {
    var starts := Starts(c, t, 0);
    StartsEmit(c, t, 0);
    if |starts| > MaxChunks then Err(ValueError("Document too large: exceeds 10,000 chunks"))
    else Ok(ChunksAt(c, t, sessionId, starts))
  }

  /** What `chunk_text(text, session_id)` returns or raises. */
  function ChunkTextSpec(c: ChunkingService, text: string, sessionId: string): (r: Result<seq<DocumentChunk>>)
    requires ValidService(c)
    ensures r.Ok? ==> |r.value| <= MaxChunks
    ensures Cleaned(text) == [] ==> r == Ok([])
    ensures r.Err? <==> |Starts(c, Cleaned(text), 0)| > MaxChunks
    ensures r.Ok? ==> |r.value| == |Starts(c, Cleaned(text), 0)|
  {
    var t := Cleaned(text);
    if t == [] then Ok([]) else WindowsSpec(c, t, sessionId)
  }

  /** `chunk_text`: clean, then walk the windows. */
  method ChunkText(c: ChunkingService, text: string, sessionId: string) returns (r: Result<seq<DocumentChunk>>)
    requires ValidService(c)
    ensures r == ChunkTextSpec(c, text, sessionId)
  {
    var t := CleanText(text);
    if t == [] {
      return Ok([]);
    }
    r := ChunkWindows(c, t, sessionId);
  }

  /** One turn of the loop: the start visited next is the head of the
      remaining starts. */
  lemma StartsCons(c: ChunkingService, t: string, start: nat)
    requires ValidService(c) && Emits(c, t, start)
    ensures Starts(c, t, start) == [start] + Starts(c, t, start + Step(c))
  {
  }

  /** Appending one window start appends the chunk built there. */
  lemma ChunksAtSnoc(c: ChunkingService, t: string, sessionId: string, starts: seq<nat>, s: nat)
    requires ValidService(c) && s <= |t|
    requires forall i :: 0 <= i < |starts| ==> starts[i] <= |t|
    ensures forall i :: 0 <= i < |starts + [s]| ==> (starts + [s])[i] <= |t|
    ensures ChunksAt(c, t, sessionId, starts + [s])
      == ChunksAt(c, t, sessionId, starts) + [ChunkAt(sessionId, t, s, c.chunkSize, |starts|)]
  {
    var l := ChunksAt(c, t, sessionId, starts + [s]);
    var r := ChunksAt(c, t, sessionId, starts) + [ChunkAt(sessionId, t, s, c.chunkSize, |starts|)];
    forall i | 0 <= i < |l|
      ensures l[i] == r[i]
    {
      if i < |starts| {
        assert (starts + [s])[i] == starts[i];
      }
    }
  }

  /** One turn of the loop over the window at `start`, the `n`-th of all
      window starts: it appends the chunk built there and moves on by one
      step. */
  lemma LoopTurn(c: ChunkingService, t: string, sessionId: string, all: seq<nat>, n: nat, start: nat, next: nat)
    requires ValidService(c) && Emits(c, t, start) && next == start + c.chunkSize - c.chunkOverlap
    requires forall i :: 0 <= i < |all| ==> all[i] <= |t|
    requires n <= |all| && all[n..] == Starts(c, t, start)
    ensures n < |all| && all[n + 1..] == Starts(c, t, next)
    ensures ChunksAt(c, t, sessionId, all[..n + 1])
      == ChunksAt(c, t, sessionId, all[..n]) + [ChunkAt(sessionId, t, start, c.chunkSize, n)]
  {
    StartsCons(c, t, start);
    assert all[n] == start;
    assert all[n + 1..] == all[n..][1..];
    assert all[..n + 1] == all[..n] + [start];
    ChunksAtSnoc(c, t, sessionId, all[..n], start);
  }

  /** The `while start < len(text)` loop of `chunk_text` over the cleaned
      text. */
  method ChunkWindows(c: ChunkingService, t: string, sessionId: string) returns (r: Result<seq<DocumentChunk>>)
    requires ValidService(c)
    ensures r == WindowsSpec(c, t, sessionId)
  {
    ghost var all := Starts(c, t, 0);
    StartsEmit(c, t, 0);
    var chunks: seq<DocumentChunk> := [];
    var start: nat := 0;
    var chunkNumber: nat := 0;
    while start < |t|
      invariant |chunks| == chunkNumber <= MaxChunks
      invariant chunkNumber <= |all| && all[chunkNumber..] == Starts(c, t, start)
      invariant chunks == ChunksAt(c, t, sessionId, all[..chunkNumber])
      decreases |t| - start
    {
      var end := start + c.chunkSize;
      var chunkText := Window(t, start, c.chunkSize);
      WindowBlank(t, start, WindowEnd(t, start, c.chunkSize));
      if Strip(chunkText) == [] {
        break;
      }
      var chunk := ChunkAt(sessionId, t, start, c.chunkSize, chunkNumber);
      var next := end - c.chunkOverlap;
      LoopTurn(c, t, sessionId, all, chunkNumber, start, next);
      chunks := chunks + [chunk];
      start := next;
      chunkNumber := chunkNumber + 1;
      if chunkNumber > MaxChunks {
        return Err(ValueError("Document too large: exceeds 10,000 chunks"));
      }
    }
    assert Starts(c, t, start) == [];
    assert all == all[..chunkNumber];
    return Ok(chunks);
  }

  /** `j` steps from `start` after one step is `j + 1` steps from `start`. */
  lemma StepsAhead(start: nat, step: nat, j: nat)
    ensures start + step + j * step == start + (j + 1) * step
  {
  }

  /** The `j`-th window start from `start` lies `j` steps after it. */
  lemma {:induction false} StartsAt(c: ChunkingService, t: string, start: nat, j: nat)
    requires ValidService(c) && j < |Starts(c, t, start)|
    ensures Starts(c, t, start)[j] == start + j * Step(c)
    decreases j
  {
    StartsCons(c, t, start);
    if j > 0 {
      StartsAt(c, t, start + Step(c), j - 1);
      StepsAhead(start, Step(c), j - 1);
    }
  }

  /** Where the `j`-th window starts: `j` steps into the cleaned text. */
  function WindowStart(c: ChunkingService, j: nat): nat
    requires ValidService(c)
  {
    j * Step(c)
  }

  /** Chunk `j` of the windows over a cleaned text `t`. */
  lemma WindowFields(c: ChunkingService, t: string, sessionId: string, j: nat)
    requires ValidService(c) && WindowsSpec(c, t, sessionId).Ok?
    requires j < |WindowsSpec(c, t, sessionId).value|
    ensures var ch := WindowsSpec(c, t, sessionId).value[j];
      var start := WindowStart(c, j);
      var stop := if start + c.chunkSize <= |t| then start + c.chunkSize else |t|;
      && start < |t|
      && ch.id == ChunkId(sessionId, j)
      && ch.metadata == ChunkMetadata(sessionId, j, start, start + c.chunkSize, stop - start)
      && ch.text == Strip(t[start..stop])
      && ch.text != [] && |ch.text| <= c.chunkSize
  {
    var starts := Starts(c, t, 0);
    StartsEmit(c, t, 0);
    StartsAt(c, t, 0, j);
    var start := starts[j];
    assert Emits(c, t, start);
    WindowBlank(t, start, WindowEnd(t, start, c.chunkSize));
    assert WindowsSpec(c, t, sessionId).value[j] == ChunkAt(sessionId, t, start, c.chunkSize, j);
  }

  /** Chunk `j` of a text: number `j`, id `"{session_id}_chunk_{j}"`,
      window start `j·(chunk_size − chunk_overlap)` inside the text, window
      end `start + chunk_size` unclipped, `total_chars` the clipped window
      length, and as text the stripped window, which is never empty and
      never longer than `chunk_size`. */
  lemma ChunkFields(c: ChunkingService, text: string, sessionId: string, j: nat)
    requires ValidService(c) && ChunkTextSpec(c, text, sessionId).Ok?
    requires j < |ChunkTextSpec(c, text, sessionId).value|
    ensures var t := Cleaned(text);
      var ch := ChunkTextSpec(c, text, sessionId).value[j];
      var start := WindowStart(c, j);
      var stop := if start + c.chunkSize <= |t| then start + c.chunkSize else |t|;
      && start < |t|
      && ch.id == ChunkId(sessionId, j)
      && ch.metadata == ChunkMetadata(sessionId, j, start, start + c.chunkSize, stop - start)
      && ch.text == Strip(t[start..stop])
      && ch.text != [] && |ch.text| <= c.chunkSize
  {
    var t := Cleaned(text);
    assert t != [];
    WindowFields(c, t, sessionId, j);
  }

  /** The loop ends at `start` exactly when no chunk is emitted there. */
  predicate StopsAt(c: ChunkingService, t: string, start: nat)
    requires ValidService(c)
  {
    !Emits(c, t, start)
  }

  /** Chunking stops at the first window that starts past the text or is
      all whitespace: the window after the last chunk is one of those. */
  lemma {:induction false} StartsStop(c: ChunkingService, t: string, start: nat)
    requires ValidService(c)
    ensures StopsAt(c, t, start + |Starts(c, t, start)| * Step(c))
    decreases |t| - start
  {
    if Emits(c, t, start) {
      StartsStop(c, t, start + Step(c));
      StartsCons(c, t, start);
      StepsAhead(start, Step(c), |Starts(c, t, start + Step(c))|);
    }
  }

  /** Windows are emitted while `start < len(text)`: a text at most one
      window long but longer than one step yields two chunks, the second of
      which lies wholly inside the first window. */
  lemma TrailingChunkInsideOverlap(c: ChunkingService, text: string, sessionId: string)
    requires ValidService(c)
    requires Step(c) < |Cleaned(text)| <= c.chunkSize && |Cleaned(text)| <= 2 * Step(c)
    ensures var r := ChunkTextSpec(c, text, sessionId);
      r.Ok? && |r.value| == 2
      && r.value[1].metadata.startChar == Step(c)
      && r.value[1].metadata.startChar + r.value[1].metadata.totalChars == |Cleaned(text)|
      && |Cleaned(text)| <= r.value[0].metadata.endChar
  {
    var t := Cleaned(text);
    CleanedShape(text);
    var step := Step(c);
    assert !IsSpace(t[0]);
    assert Emits(c, t, 0);
    assert !IsSpace(t[|t| - 1]);
    assert Emits(c, t, step);
    assert !Emits(c, t, step + step);
    StartsCons(c, t, 0);
    StartsCons(c, t, step);
    assert Starts(c, t, 0) == [0, step];
  }

  // ---------------------------------------------------------------------
  // Statistics (`get_chunk_stats`)
  // ---------------------------------------------------------------------

  datatype ChunkStats = ChunkStats(
    totalChunks: nat,
    totalCharacters: nat,
    avgChunkSize: nat,
    minChunkSize: nat,
    maxChunkSize: nat)

  function Sum(xs: seq<nat>): nat {
    if xs == [] then 0 else xs[0] + Sum(xs[1..])
  }

  function Min(xs: seq<nat>): (m: nat)
    requires xs != []
    ensures m in xs && forall i :: 0 <= i < |xs| ==> m <= xs[i]
  {
    if |xs| == 1 then xs[0]
    else var rest := Min(xs[1..]); if xs[0] <= rest then xs[0] else rest
  }

  function Max(xs: seq<nat>): (m: nat)
    requires xs != []
    ensures m in xs && forall i :: 0 <= i < |xs| ==> xs[i] <= m
  {
    if |xs| == 1 then xs[0]
    else var rest := Max(xs[1..]); if xs[0] >= rest then xs[0] else rest
  }

  lemma MulMonotone(n: nat, a: nat, b: nat)
    requires a <= b
    ensures n * a <= n * b
  {
  }

  lemma MulSucc(n: nat, a: nat)
    ensures (n + 1) * a == n * a + a
  {
  }

  /** A sum lies between length times minimum and length times maximum. */
  lemma {:induction false} SumBetween(xs: seq<nat>)
    requires xs != []
    ensures |xs| * Min(xs) <= Sum(xs) <= |xs| * Max(xs)
  {
    if |xs| > 1 {
      var tl := xs[1..];
      var n := |tl|;
      SumBetween(tl);
      assert Min(tl) in xs;
      assert Max(tl) in xs;
      MulMonotone(n, Min(xs), Min(tl));
      MulMonotone(n, Max(tl), Max(xs));
      MulSucc(n, Min(xs));
      MulSucc(n, Max(xs));
      assert Sum(xs) == xs[0] + Sum(tl);
    }
  }

  /** Floor division of a sum of at least `n·lo` by `n` is at least `lo`. */
  lemma FloorDivAbove(total: nat, n: nat, lo: nat)
    requires n > 0 && n * lo <= total
    ensures lo <= total / n
  {
    var q := total / n;
    assert total == n * q + total % n && total % n < n;
    // q + 1 <= lo would give n * (q + 1) <= total < n * (q + 1)
    MulSucc(q, n);
    MulMonotone(n, if q + 1 <= lo then q + 1 else lo, lo);
  }

  /** Floor division of a sum of at most `n·hi` by `n` is at most `hi`. */
  lemma FloorDivBelow(total: nat, n: nat, hi: nat)
    requires n > 0 && total <= n * hi
    ensures total / n <= hi
  {
    var q := total / n;
    assert total == n * q + total % n;
    // hi + 1 <= q would give n * hi + n <= total <= n * hi
    MulSucc(hi, n);
    MulMonotone(n, if hi + 1 <= q then hi + 1 else q, q);
  }

  /** Floor division of a sum between `n·lo` and `n·hi` by `n` stays between
      `lo` and `hi`. */
  lemma FloorDivBetween(total: nat, n: nat, lo: nat, hi: nat)
    requires n > 0 && n * lo <= total <= n * hi
    ensures lo <= total / n <= hi
  {
    FloorDivAbove(total, n, lo);
    FloorDivBelow(total, n, hi);
  }

  /** The sizes of the chunk texts. */
  function Sizes(chunks: seq<DocumentChunk>): (sizes: seq<nat>)
    ensures |sizes| == |chunks|
  {
    seq(|chunks|, i requires 0 <= i < |chunks| => |chunks[i].text|)
  }

  /** `get_chunk_stats`: all zero for no chunks; otherwise the count, the
      total length, and a floor average that lies between the shortest and
      the longest chunk. */
  function GetChunkStats(chunks: seq<DocumentChunk>): (st: ChunkStats)
    ensures chunks == [] ==> st == ChunkStats(0, 0, 0, 0, 0)
    ensures chunks != [] ==>
      && st.totalChunks == |chunks|
      && st.totalCharacters == Sum(Sizes(chunks))
      && st.minChunkSize <= st.avgChunkSize <= st.maxChunkSize
      && (forall i :: 0 <= i < |chunks| ==> st.minChunkSize <= |chunks[i].text| <= st.maxChunkSize)
      && (exists i :: 0 <= i < |chunks| && |chunks[i].text| == st.minChunkSize)
      && (exists i :: 0 <= i < |chunks| && |chunks[i].text| == st.maxChunkSize)
  {
    if chunks == [] then ChunkStats(0, 0, 0, 0, 0)
    else
      var sizes := Sizes(chunks);
      SumBetween(sizes);
      FloorDivBetween(Sum(sizes), |sizes|, Min(sizes), Max(sizes));
      assert forall i :: 0 <= i < |chunks| ==> sizes[i] == |chunks[i].text|;
      ChunkStats(|chunks|, Sum(sizes), Sum(sizes) / |sizes|, Min(sizes), Max(sizes))
  }
}
