/**
 Code fences and cuts, told from outside: which lines are fences, which language
 a fence opens, how a chunk reopens it, and where in its words a message is cut.
 */
module DiscordFences {
  import opened DiscordText
  import opened DiscordSplit
  import opened DiscordMessage

  // ---- trimming, by its result ----

  lemma {:induction false} TrimRightOf(s: Text, b: Text)
    requires AllSpace(b) && (s == [] || !IsSpace(s[|s| - 1]))
    ensures TrimRight(s + b) == s
  {
    if b == [] {
      assert s + b == s;
    } else {
      assert (s + b)[..|s + b| - 1] == s + b[..|b| - 1];
      TrimRightOf(s, b[..|b| - 1]);
    }
  }

  lemma {:induction false} TrimLeftOf(a: Text, s: Text)
    requires AllSpace(a) && (s == [] || !IsSpace(s[0]))
    ensures TrimLeft(a + s) == s
  {
    if a == [] {
      assert a + s == s;
    } else {
      assert (a + s)[1..] == a[1..] + s;
      TrimLeftOf(a[1..], s);
    }
  }

  /** Trimming takes exactly the whitespace around a solid text. */
  lemma TrimOf(a: Text, s: Text, b: Text)
    requires AllSpace(a) && AllSpace(b) && Solid(s)
    ensures Trim(a + s + b) == s
  {
    TrimRightOf(a + s, b);
    TrimLeftOf(a, s);
  }

  lemma TrimOfSpace(a: Text)
    requires AllSpace(a)
    ensures Trim(a) == []
  {
    TrimRightOf([], a);
    assert [] + a == a;
  }

  // ---- fence lines ----

  /** Three backticks after nothing but whitespace. */
  predicate MarksAt(line: Text, i: nat) {
    i + 3 <= |line| && AllSpace(line[..i]) && line[i..i + 3] == [Scalar('`'), Scalar('`'), Scalar('`')]
  }

  /** A fence line in its parts: indentation, fence, a gap, the language, and whitespace. */
  ghost predicate FenceLine(line: Text, language: Text) {
    exists a, gap, b :: IsFenceLine(line, a, gap, language, b)
  }

  predicate IsFenceLine(line: Text, a: Text, gap: Text, language: Text, b: Text) {
    && AllSpace(a) && AllSpace(gap) && AllSpace(b) && (language == [] || Solid(language))
    && line == a + Fence() + gap + language + b
  }

  lemma FencePartTrims(a: Text, gap: Text, language: Text, b: Text)
    requires IsFenceLine(a + Fence() + gap + language + b, a, gap, language, b)
    ensures var trimmed := Trim(a + Fence() + gap + language + b);
            Fence() <= trimmed && Trim(trimmed[3..]) == language
  {
    if language == [] {
      assert a + Fence() + gap + language + b == a + Fence() + (gap + b);
      TrimOf(a, Fence(), gap + b);
      TrimOfSpace([]);
    } else {
      var s := Fence() + gap + language;
      assert a + Fence() + gap + language + b == a + s + b;
      assert s[|s| - 1] == language[|language| - 1] && s[0] == Scalar('`');
      TrimOf(a, s, b);
      assert s[3..] == gap + language + [];
      TrimOf(gap, language, []);
    }
  }

  /** A fence opens a block with its language, cut to 32 bytes, or closes the open one. */
  lemma FenceLineScans(line: Text, language: Text, s: FenceState)
    requires FenceLine(line, language)
    ensures ScanLine(line, s)
         == if s.open then FenceState(false, [])
            else FenceState(true, if Bytes(language) <= 32 then language else TakeBytes(language, 32))
  {
    var a, gap, b :| IsFenceLine(line, a, gap, language, b);
    FencePartTrims(a, gap, language, b);
  }

  /** A line is a fence exactly when it begins so. */
  lemma FencesExactly(line: Text)
    ensures MarksFence(line) <==> exists i: nat :: MarksAt(line, i)
  {
    if MarksFence(line) {
      TrimIsSolid(line);
      var i: nat, j :| i <= j <= |line| && line[i..j] == Trim(line) && AllSpace(line[..i]) && AllSpace(line[j..]);
      assert line[i..i + 3] == line[i..j][..3] == Fence();
      assert MarksAt(line, i);
    }
    if i: nat :| MarksAt(line, i) {
      MarkedIsFenceLine(line, i);
      var language :| FenceLine(line, language);
      var a, gap, b :| IsFenceLine(line, a, gap, language, b);
      FencePartTrims(a, gap, language, b);
    }
  }

  /** Every other line changes nothing. */
  lemma OtherLineScans(line: Text, s: FenceState)
    requires forall i: nat :: !MarksAt(line, i)
    ensures ScanLine(line, s) == s
  {
    FencesExactly(line);
  }

  lemma MarkedIsFenceLine(line: Text, i: nat)
    requires MarksAt(line, i)
    ensures exists language :: FenceLine(line, language)
  {
    var rest := line[i + 3..];
    TrimIsSolid(rest);
    var j, k :| 0 <= j <= k <= |rest| && rest[j..k] == Trim(rest) && AllSpace(rest[..j]) && AllSpace(rest[k..]);
    FiveParts(line, i, j, k);
    assert IsFenceLine(line, line[..i], rest[..j], Trim(rest), rest[k..]);
    assert FenceLine(line, Trim(rest));
  }

  lemma FiveParts(line: Text, i: nat, j: nat, k: nat)
    requires i + 3 <= |line| && j <= k <= |line| - i - 3
    ensures var rest := line[i + 3..];
            line == line[..i] + line[i..i + 3] + rest[..j] + rest[j..k] + rest[k..]
  {
    var rest := line[i + 3..];
    assert rest == rest[..j] + rest[j..k] + rest[k..];
    assert line == line[..i] + line[i..i + 3] + rest;
  }

  /** The first k glyphs of a text, and then only stray bytes. */
  predicate BeginsLike(r: Text, t: Text, k: nat) {
    k <= |t| && k <= |r| && r[..k] == t[..k] && forall i :: k <= i < |r| ==> r[i] == Stray
  }

  /** Cut to n bytes: as many glyphs as fit, and the bytes of the next one that still do. */
  lemma TakeBytesIs(t: Text, n: nat) returns (k: nat)
    ensures BeginsLike(TakeBytes(t, n), t, k)
    ensures Bytes(TakeBytes(t, n)) == (if Bytes(t) < n then Bytes(t) else n)
  {
    k := TakeBytesBegins(t, n);
    TakeBytesLength(t, n);
  }

  lemma {:induction false} TakeBytesBegins(t: Text, n: nat) returns (k: nat)
    ensures BeginsLike(TakeBytes(t, n), t, k)
  {
    k := 0;
    if t != [] && n > 0 && Width(t[0]) <= n {
      k := TakeBytesBegins(t[1..], n - Width(t[0]));
      OneMoreGlyph(t, TakeBytes(t[1..], n - Width(t[0])), k);
      k := k + 1;
    }
  }

  lemma {:induction false} TakeBytesLength(t: Text, n: nat)
    ensures Bytes(TakeBytes(t, n)) == (if Bytes(t) < n then Bytes(t) else n)
  {
    if t != [] {
      assert t == [t[0]] + t[1..];
      BytesOfFirst(t[0], t[1..]);
      if n > 0 && Width(t[0]) <= n {
        TakeBytesLength(t[1..], n - Width(t[0]));
        BytesOfFirst(t[0], TakeBytes(t[1..], n - Width(t[0])));
      } else {
        StrayBytes(n);
      }
    }
  }

  lemma BytesOfFirst(g: Glyph, t: Text)
    ensures Bytes([g] + t) == Width(g) + Bytes(t)
  {
    assert [g][..0] == [];
    BytesConcat([g], t);
  }

  lemma OneMoreGlyph(t: Text, rest: Text, k: nat)
    requires t != [] && BeginsLike(rest, t[1..], k)
    ensures BeginsLike([t[0]] + rest, t, k + 1)
  {
    assert ([t[0]] + rest)[..k + 1] == [t[0]] + rest[..k];
    assert t[..k + 1] == [t[0]] + t[1..][..k];
  }

  lemma {:induction false} StrayBytes(n: nat)
    ensures Bytes(seq(n, _ => Stray)) == n
  {
    if n > 0 {
      assert seq(n, _ => Stray)[..n - 1] == seq(n - 1, _ => Stray);
      StrayBytes(n - 1);
    }
  }

  // ---- chunks ----

  /**
   A chunk is its part, after a fence with the language if a block is open before it, and before a
   fence if one is after it.
   */
  lemma ChunkIs(part: Text, before: FenceState)
    requires Solid(part)
    ensures Chunk(part, before)
         == (if before.open then Fence() + before.language + [Scalar('\n')] else []) + part
            + (if Scan(part, before).open then [Scalar('\n')] + Fence() else [])
    ensures Fence() == [Scalar('`'), Scalar('`'), Scalar('`')]
  {
    WrappedIsSolid(part, before, Scan(part, before));
  }

  /** Read from a closed state, a reopened block has the language it had. */
  lemma LanguageIsKept(language: Text, rest: Text)
    requires SingleLine(language) && (language == [] || Solid(language)) && Bytes(language) <= 32
    ensures Scan(Fence() + language + Newline() + rest, Closed()) == Scan(rest, FenceState(true, language))
  {
    ReopenedScan(language, rest);
    MarkerLine(language);
    ScanOneLine(Fence() + language, Closed());
    assert IsFenceLine(Fence() + language, [], [], language, []) by {
      assert Fence() + language == [] + Fence() + [] + language + [];
    }
    assert FenceLine(Fence() + language, language);
    FenceLineScans(Fence() + language, language, Closed());
  }

  /** Chunks are at most 2000 units long and made from pieces of at most 1900. */
  lemma LimitsAre(part: Text, before: FenceState)
    requires Solid(part) && UnitsOf(part) <= 1900 && ShortLanguage(before.language)
    ensures UnitsOf(Chunk(part, before)) <= 2000 && ChunksOf(part, before) == [Chunk(part, before)]
  {
    ChunkIsGood(part, before);
  }

  // ---- where a message is cut ----

  /** A cut after whitespace is after the last whitespace that fits. */
  lemma CutIsLast(t: Text, limit: nat, j: nat)
    requires limit >= 2 && UnitsOf(t) > limit && IsSpace(t[Cut(t, limit) - 1])
    requires Cut(t, limit) < j <= |t| && UnitsOf(t[..j]) <= limit
    ensures !IsSpace(t[j - 1])
  {
    FitBounds(t, limit);
    WithinFit(t, limit, j);
    LastBreakBounds(t, Fit(t, limit));
  }

  /** No cut gives up more than half of the bytes that would fit. */
  lemma CutKeepsHalf(t: Text, limit: nat, j: nat)
    requires limit >= 2 && UnitsOf(t) > limit && j <= |t| && UnitsOf(t[..j]) <= limit
    ensures Bytes(t[..Cut(t, limit)]) >= Bytes(t[..j]) / 2
  {
    FitBounds(t, limit);
    WithinFit(t, limit, j);
    PrefixBytes(t, j, Fit(t, limit));
  }

  lemma WithinFit(t: Text, limit: nat, j: nat)
    requires j <= |t| && UnitsOf(t[..j]) <= limit
    ensures j <= Fit(t, limit)
  {
    FitBounds(t, limit);
    if Fit(t, limit) < |t| {
      UnitsGrow(t, Fit(t, limit) + 1, j);
    }
  }

  lemma UnitsGrow(t: Text, i: nat, j: nat)
    requires i <= |t| && j <= |t|
    ensures i <= j ==> UnitsOf(t[..i]) <= UnitsOf(t[..j])
  {
    if i <= j {
      assert t[..j] == t[..i] + t[i..j];
      UnitsConcat(t[..i], t[i..j]);
    }
  }
}
