/**
 Whole messages: pieces of 1900 units, each closed and reopened around a fenced
 code block that spans the cut.
 */
module DiscordMessage {
  import opened DiscordText
  import opened DiscordSplit

  const MESSAGE_LIMIT: nat := 2000
  const CHUNK_TARGET: nat := 1900
  const LANGUAGE_BYTES: nat := 32

  function Fence(): Text {
    [Scalar('`'), Scalar('`'), Scalar('`')]
  }

  predicate IsNewline(g: Glyph) {
    g == Scalar('\n')
  }

  function Newline(): Text {
    [Scalar('\n')]
  }

  // ---- fences, line by line ----

  /** The lines of a text; a text without a newline is one line. */
  function Lines(t: Text): (lines: seq<Text>)
    ensures lines != []
  {
    if t == [] then [[]]
    else if IsNewline(t[0]) then [[]] + Lines(t[1..])
    else Extended(t[0], Lines(t[1..]))
  }

  /** The same lines with one more glyph at the start of the first. */
  function Extended(g: Glyph, lines: seq<Text>): (more: seq<Text>)
    requires lines != []
    ensures |more| == |lines| && more[0] == [g] + lines[0] && forall i :: 0 < i < |lines| ==> more[i] == lines[i]
  {
    [[g] + lines[0]] + lines[1..]
  }

  predicate SingleLine(t: Text) {
    forall i :: 0 <= i < |t| ==> !IsNewline(t[i])
  }

  lemma ExtendedConcat(g: Glyph, a: seq<Text>, b: seq<Text>)
    requires a != []
    ensures Extended(g, a + b) == Extended(g, a) + b
  {
  }

  lemma {:induction false} LinesJoin(a: Text, b: Text)
    ensures Lines(a + Newline() + b) == Lines(a) + Lines(b)
  {
    if a == [] {
      assert (a + Newline() + b)[1..] == b;
    } else {
      var all := a + Newline() + b;
      assert all[0] == a[0] && all[1..] == a[1..] + Newline() + b;
      LinesJoin(a[1..], b);
      if IsNewline(a[0]) {
        assert [[]] + (Lines(a[1..]) + Lines(b)) == [[]] + Lines(a[1..]) + Lines(b);
      } else {
        ExtendedConcat(a[0], Lines(a[1..]), Lines(b));
      }
    }
  }

  lemma {:induction false} LinesOfLine(t: Text)
    requires SingleLine(t)
    ensures Lines(t) == [t]
  {
    if t != [] {
      LinesOfLine(t[1..]);
      assert [t[0]] + t[1..] == t;
    }
  }

  lemma {:induction false} LinesAreSingle(t: Text)
    ensures forall i :: 0 <= i < |Lines(t)| ==> SingleLine(Lines(t)[i])
  {
    if t != [] {
      LinesAreSingle(t[1..]);
    }
  }

  /** Whether a code block is open, and the language it was reopened with. */
  datatype FenceState = FenceState(open: bool, language: Text)

  function Closed(): FenceState {
    FenceState(false, [])
  }

  predicate MarksFence(line: Text) {
    Fence() <= Trim(line)
  }

  /** The first n bytes: a glyph cut in two leaves stray bytes. */
  function TakeBytes(t: Text, n: nat): Text {
    if t == [] || n == 0 then []
    else if Width(t[0]) <= n then [t[0]] + TakeBytes(t[1..], n - Width(t[0]))
    else seq(n, _ => Stray)
  }

  function LanguageOf(line: Text): Text
    requires MarksFence(line)
  {
    var language := Trim(Trim(line)[3..]);
    if Bytes(language) > LANGUAGE_BYTES then TakeBytes(language, LANGUAGE_BYTES) else language
  }

  function ScanLine(line: Text, s: FenceState): FenceState {
    if !MarksFence(line) then s
    else if s.open then Closed()
    else FenceState(true, LanguageOf(line))
  }

  function ScanLines(lines: seq<Text>, s: FenceState): FenceState {
    if lines == [] then s else ScanLine(lines[|lines| - 1], ScanLines(lines[..|lines| - 1], s))
  }

  function Scan(t: Text, s: FenceState): FenceState {
    ScanLines(Lines(t), s)
  }

  method ScanFenceState(content: Text, open0: bool, language0: Text) returns (open: bool, language: Text)
    ensures FenceState(open, language) == Scan(content, FenceState(open0, language0))
  {
    open, language := open0, language0;
    var lines := Lines(content);
    for i := 0 to |lines|
      invariant FenceState(open, language) == ScanLines(lines[..i], FenceState(open0, language0))
    {
      assert lines[..i + 1][..i] == lines[..i];
      var trimmed := Trim(lines[i]);
      if !(Fence() <= trimmed) {
        continue;
      }
      if open {
        open, language := false, [];
        continue;
      }
      open := true;
      language := Trim(trimmed[3..]);
      if Bytes(language) > LANGUAGE_BYTES {
        language := TakeBytes(language, LANGUAGE_BYTES);
      }
    }
    assert lines[..|lines|] == lines;
  }

  lemma {:induction false} ScanLinesConcat(a: seq<Text>, b: seq<Text>, s: FenceState)
    ensures ScanLines(a + b, s) == ScanLines(b, ScanLines(a, s))
  {
    if b == [] {
      assert a + b == a;
    } else {
      var k := |b| - 1;
      assert (a + b)[..|a + b| - 1] == a + b[..k];
      ScanLinesConcat(a, b[..k], s);
    }
  }

  /** Scanning a text that ends a line continues where the scan of the first part stopped. */
  lemma ScanJoin(a: Text, b: Text, s: FenceState)
    ensures Scan(a + Newline() + b, s) == Scan(b, Scan(a, s))
  {
    LinesJoin(a, b);
    ScanLinesConcat(Lines(a), Lines(b), s);
  }

  /** Whether a block is open afterwards does not depend on the language it was reopened with. */
  lemma {:induction false} OpenIgnoresLanguage(lines: seq<Text>, open: bool, a: Text, b: Text)
    ensures ScanLines(lines, FenceState(open, a)).open == ScanLines(lines, FenceState(open, b)).open
  {
    if lines != [] {
      OpenIgnoresLanguage(lines[..|lines| - 1], open, a, b);
    }
  }

  // ---- the language a block carries across a cut ----

  /** What the splitter relies on: one line, at most 32 bytes and so at most 32 units. */
  predicate ShortLanguage(t: Text) {
    SingleLine(t) && UnitsOf(t) <= LANGUAGE_BYTES
  }

  lemma {:induction false} TakeBytesShort(t: Text, n: nat)
    requires SingleLine(t)
    ensures SingleLine(TakeBytes(t, n)) && UnitsOf(TakeBytes(t, n)) <= n
  {
    if t == [] || n == 0 {
    } else if Width(t[0]) <= n {
      TakeBytesShort(t[1..], n - Width(t[0]));
      UnitsConcat([t[0]], TakeBytes(t[1..], n - Width(t[0])));
      assert UnitsOf([t[0]]) == Units(t[0]);
    } else {
      StrayUnits(n);
    }
  }

  lemma {:induction false} StrayUnits(n: nat)
    ensures UnitsOf(seq(n, _ => Stray)) == n
  {
    if n > 0 {
      assert seq(n, _ => Stray)[..n - 1] == seq(n - 1, _ => Stray);
      StrayUnits(n - 1);
    }
  }

  lemma TrimOfLine(t: Text)
    requires SingleLine(t)
    ensures SingleLine(Trim(t))
  {
    TrimIsSolid(t);
    var i, j :| 0 <= i <= j <= |t| && t[i..j] == Trim(t) && AllSpace(t[..i]) && AllSpace(t[j..]);
  }

  lemma LanguageIsShort(line: Text)
    requires SingleLine(line) && MarksFence(line)
    ensures ShortLanguage(LanguageOf(line))
  {
    TrimOfLine(line);
    TrimOfLine(Trim(line)[3..]);
    var language := Trim(Trim(line)[3..]);
    UnitsWithinBytes(language);
    TakeBytesShort(language, LANGUAGE_BYTES);
  }

  lemma {:induction false} ScanLinesShort(lines: seq<Text>, s: FenceState)
    requires ShortLanguage(s.language) && forall i :: 0 <= i < |lines| ==> SingleLine(lines[i])
    ensures ShortLanguage(ScanLines(lines, s).language)
  {
    if lines != [] {
      var k := |lines| - 1;
      ScanLinesShort(lines[..k], s);
      if MarksFence(lines[k]) {
        LanguageIsShort(lines[k]);
      }
    }
  }

  lemma ScanShort(t: Text, s: FenceState)
    requires ShortLanguage(s.language)
    ensures ShortLanguage(Scan(t, s).language)
  {
    LinesAreSingle(t);
    ScanLinesShort(Lines(t), s);
  }

  // ---- one chunk ----

  /** A piece with the fence reopened before it and closed after it, as the states around it demand. */
  function Wrapped(part: Text, before: FenceState, after: FenceState): Text {
    (if before.open then Fence() + before.language + Newline() else []) + part
    + (if after.open then Newline() + Fence() else [])
  }

  lemma WrappedIsSolid(part: Text, before: FenceState, after: FenceState)
    requires Solid(part)
    ensures TrimRight(Wrapped(part, before, after)) == Wrapped(part, before, after) != []
  {
    var w := Wrapped(part, before, after);
    assert !IsSpace(w[|w| - 1]) by {
      if after.open { assert w[|w| - 1] == Scalar('`'); } else { assert w[|w| - 1] == part[|part| - 1]; }
    }
  }

  lemma WrappedFits(part: Text, before: FenceState, after: FenceState)
    requires UnitsOf(part) <= CHUNK_TARGET && ShortLanguage(before.language)
    ensures UnitsOf(Wrapped(part, before, after)) <= MESSAGE_LIMIT
  {
    var head := if before.open then Fence() + before.language + Newline() else [];
    var tail := if after.open then Newline() + Fence() else [];
    FenceUnits();
    UnitsConcat(Fence() + before.language, Newline());
    UnitsConcat(Fence(), before.language);
    UnitsConcat(Newline(), Fence());
    UnitsConcat(head + part, tail);
    UnitsConcat(head, part);
  }

  lemma FenceUnits()
    ensures UnitsOf(Fence()) == 3 && UnitsOf(Newline()) == 1
  {
    var f := Fence();
    assert f[..2] == [f[0], f[1]] && f[..2][..1] == [f[0]] && [f[0]][..0] == [];
    assert UnitsOf([f[0]]) == 1 && UnitsOf(f[..2]) == 2;
  }

  lemma {:induction false} TrimRightKeeps(t: Text, n: nat)
    requires 0 < n <= |t| && !IsSpace(t[n - 1])
    ensures |TrimRight(t)| >= n
  {
    if IsSpace(t[|t| - 1]) {
      TrimRightKeeps(t[..|t| - 1], n);
    }
  }

  lemma ScanOneLine(line: Text, s: FenceState)
    requires Lines(line) == [line]
    ensures Scan(line, s) == ScanLine(line, s)
  {
    assert [line][..0] == [];
    assert ScanLines([line], s) == ScanLine(line, ScanLines([], s));
  }

  /** A fence marker, alone or followed by a language, is one fence line. */
  lemma MarkerLine(language: Text)
    requires SingleLine(language)
    ensures Lines(Fence() + language) == [Fence() + language] && MarksFence(Fence() + language)
  {
    var line := Fence() + language;
    LinesOfLine(line);
    TrimRightSplits(line);
    TrimRightKeeps(line, 3);
    assert TrimRight(line)[..3] == Fence();
    assert TrimLeft(TrimRight(line)) == TrimRight(line);
  }

  /** A reopened fence leaves a block open before what follows. */
  lemma ReopenedScan(language: Text, rest: Text)
    requires SingleLine(language)
    ensures Scan(Fence() + language, Closed()).open
    ensures Scan(Fence() + language + Newline() + rest, Closed()) == Scan(rest, Scan(Fence() + language, Closed()))
  {
    MarkerLine(language);
    ScanOneLine(Fence() + language, Closed());
    ScanJoin(Fence() + language, rest, Closed());
  }

  /** A fence after a text that leaves a block open closes it. */
  lemma ClosingScan(part: Text, s: FenceState)
    ensures Scan(part, s).open ==> !Scan(part + (Newline() + Fence()), s).open
  {
    assert part + (Newline() + Fence()) == part + Newline() + Fence();
    ScanJoin(part, Fence(), s);
    MarkerLine([]);
    assert Fence() + [] == Fence();
    ScanOneLine(Fence(), Scan(part, s));
  }

  /** Scanned on its own, a wrapped chunk opens and closes the same number of blocks. */
  lemma WrappedIsBalanced(part: Text, before: FenceState)
    requires ShortLanguage(before.language)
    ensures !Scan(Wrapped(part, before, Scan(part, before)), Closed()).open
  {
    var after := Scan(part, before);
    var tail := if after.open then Newline() + Fence() else [];
    var reopened := if before.open then Scan(Fence() + before.language, Closed()) else Closed();
    if before.open {
      ReopenedScan(before.language, part + tail);
      assert Wrapped(part, before, after) == Fence() + before.language + Newline() + (part + tail);
    } else {
      assert Wrapped(part, before, after) == part + tail;
    }
    OpenIgnoresLanguage(Lines(part), before.open, reopened.language, before.language);
    ClosingScan(part, reopened);
    assert part + [] == part;
  }

  // ---- the message ----

  function Chunk(part: Text, s: FenceState): Text {
    TrimRight(Wrapped(part, s, Scan(part, s)))
  }

  /** The chunks of one part; the second split is the defensive branch of the code. */
  function ChunksOf(part: Text, s: FenceState): seq<Text> {
    if UnitsOf(Chunk(part, s)) > MESSAGE_LIMIT then Pieces(Chunk(part, s), MESSAGE_LIMIT) else [Chunk(part, s)]
  }

  function Chunks(parts: seq<Text>, s: FenceState): seq<Text> {
    if parts == [] then [] else ChunksOf(parts[0], s) + Chunks(parts[1..], Scan(parts[0], s))
  }

  method ChunkPart(part: Text, open0: bool, language0: Text) returns (chunks: seq<Text>, open: bool, language: Text)
    ensures FenceState(open, language) == Scan(part, FenceState(open0, language0))
    ensures chunks == ChunksOf(part, FenceState(open0, language0))
  {
    var chunk := part;
    if open0 {
      chunk := Fence() + language0 + Newline() + chunk;
    }
    open, language := ScanFenceState(part, open0, language0);
    if open {
      chunk := chunk + (Newline() + Fence());
    }
    assert chunk == Wrapped(part, FenceState(open0, language0), FenceState(open, language));
    chunk := TrimRight(chunk);
    var units := Utf16Units(chunk);
    if units > MESSAGE_LIMIT {
      chunks := SplitByUtf16Limit(chunk, MESSAGE_LIMIT);
    } else {
      chunks := [chunk];
    }
  }

  lemma ChunksStep(parts: seq<Text>, i: nat, s: FenceState)
    requires i < |parts|
    ensures Chunks(parts[i..], s) == ChunksOf(parts[i], s) + Chunks(parts[i + 1..], Scan(parts[i], s))
  {
    assert parts[i..][0] == parts[i] && parts[i..][1..] == parts[i + 1..];
  }

  method SplitDiscordMessage(text: Text) returns (chunks: seq<Text>)
    ensures chunks == if Trim(text) == [] then [] else Chunks(Pieces(Trim(text), CHUNK_TARGET), Closed())
  {
    var content := Trim(text);
    if content == [] {
      return [];
    }
    var raw := SplitByUtf16Limit(content, CHUNK_TARGET);
    chunks := [];
    var open, language := false, [];
    assert raw[0..] == raw;
    for i := 0 to |raw|
      invariant chunks + Chunks(raw[i..], FenceState(open, language)) == Chunks(raw, Closed())
    {
      ChunksStep(raw, i, FenceState(open, language));
      var more;
      more, open, language := ChunkPart(raw[i], open, language);
      chunks := chunks + more;
    }
  }

  /** What one chunk must be: the part in its fences, within the limit, and closed when read alone. */
  predicate GoodChunk(chunk: Text, part: Text, before: FenceState) {
    && chunk == Wrapped(part, before, Scan(part, before))
    && chunk != [] && UnitsOf(chunk) <= MESSAGE_LIMIT && !Scan(chunk, Closed()).open
  }

  /** Chunk by chunk, each in the fence state that the parts before it leave. */
  predicate GoodChunks(chunks: seq<Text>, parts: seq<Text>, s: FenceState)
    decreases |parts|
  {
    |chunks| == |parts| &&
    (parts != [] ==> GoodChunk(chunks[0], parts[0], s) && GoodChunks(chunks[1..], parts[1..], Scan(parts[0], s)))
  }

  lemma ChunkIsGood(part: Text, s: FenceState)
    requires Solid(part) && UnitsOf(part) <= CHUNK_TARGET && ShortLanguage(s.language)
    ensures ChunksOf(part, s) == [Chunk(part, s)] && GoodChunk(Chunk(part, s), part, s)
  {
    WrappedIsSolid(part, s, Scan(part, s));
    WrappedFits(part, s, Scan(part, s));
    WrappedIsBalanced(part, s);
  }

  lemma {:induction false} ChunksAreGood(parts: seq<Text>, s: FenceState)
    requires ShortLanguage(s.language)
    requires forall i :: 0 <= i < |parts| ==> Solid(parts[i]) && UnitsOf(parts[i]) <= CHUNK_TARGET
    ensures GoodChunks(Chunks(parts, s), parts, s)
    decreases |parts|
  {
    if parts != [] {
      ChunkIsGood(parts[0], s);
      ScanShort(parts[0], s);
      ChunksAreGood(parts[1..], Scan(parts[0], s));
      var rest := Chunks(parts[1..], Scan(parts[0], s));
      assert ([Chunk(parts[0], s)] + rest)[1..] == rest;
    }
  }

  /**
   Every chunk of a message is non-empty, within Discord's limit and closed when
   read alone; it is one piece in its fences, so the defensive second split never
   runs; and the pieces are the message, whitespace between them aside.
   */
  lemma MessageChunks(text: Text)
    requires Trim(text) != []
    ensures var parts := Pieces(Trim(text), CHUNK_TARGET);
            parts != [] && GoodChunks(Chunks(parts, Closed()), parts, Closed()) && Covers(Trim(text), parts)
  {
    var content := Trim(text);
    TrimIsSolid(text);
    PiecesSolid(content, CHUNK_TARGET);
    PiecesFit(content, CHUNK_TARGET);
    PiecesCover(content, CHUNK_TARGET);
    ChunksAreGood(Pieces(content, CHUNK_TARGET), Closed());
  }
}
