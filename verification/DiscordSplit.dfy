/**
 Cutting a message into pieces of a bounded number of UTF-16 units, preferring
 to cut after whitespace: the loop, what it computes, and what the pieces are.
 */
module DiscordSplit {
  import opened DiscordText

  // ---- where one piece ends ----

  /** How many glyphs fit into the budget. */
  function Fit(t: Text, limit: nat): nat {
    if t == [] || Units(t[0]) > limit then 0 else 1 + Fit(t[1..], limit - Units(t[0]))
  }

  /** The end of the last whitespace among the first k glyphs; 0 if there is none. */
  function LastBreak(t: Text, k: nat): nat
    requires k <= |t|
  {
    if k == 0 then 0 else if IsSpace(t[k - 1]) then k else LastBreak(t, k - 1)
  }

  lemma {:induction false} FitBounds(t: Text, limit: nat)
    ensures Fit(t, limit) <= |t| && UnitsOf(t[..Fit(t, limit)]) <= limit
    ensures Fit(t, limit) < |t| ==> UnitsOf(t[..Fit(t, limit) + 1]) > limit
  {
    if t != [] && Units(t[0]) <= limit {
      var k := Fit(t, limit);
      FitBounds(t[1..], limit - Units(t[0]));
      assert t[..k] == [t[0]] + t[1..][..k - 1];
      UnitsConcat([t[0]], t[1..][..k - 1]);
      assert UnitsOf([t[0]]) == Units(t[0]);
      if k < |t| {
        assert t[..k + 1] == [t[0]] + t[1..][..k];
        UnitsConcat([t[0]], t[1..][..k]);
      }
    } else if t != [] {
      assert t[..1] == [t[0]];
    }
  }

  lemma {:induction false} LastBreakBounds(t: Text, k: nat)
    requires k <= |t|
    ensures var b := LastBreak(t, k);
            b <= k && (b > 0 ==> IsSpace(t[b - 1])) && forall j :: b <= j < k ==> !IsSpace(t[j])
  {
    if k > 0 && !IsSpace(t[k - 1]) {
      LastBreakBounds(t, k - 1);
    }
  }

  /** The cut: after the last whitespace that fits, unless that gives up more than half the bytes that fit. */
  function Cut(t: Text, limit: nat): (cut: nat)
    ensures cut <= |t|
  {
    FitBounds(t, limit);
    var fit := Fit(t, limit);
    LastBreakBounds(t, fit);
    var brk := LastBreak(t, fit);
    if brk > 0 && Bytes(t[..brk]) >= Bytes(t[..fit]) / 2 then brk else fit
  }

  lemma CutAdvances(t: Text, limit: nat)
    requires limit >= 2 && t != []
    ensures Cut(t, limit) > 0
  {
  }

  lemma CutFits(t: Text, limit: nat)
    requires limit >= 2 && UnitsOf(t) > limit
    ensures 0 < Cut(t, limit) <= Fit(t, limit) < |t| && UnitsOf(t[..Cut(t, limit)]) <= limit
  {
    FitBounds(t, limit);
    assert t[..|t|] == t;
    var fit, brk := Fit(t, limit), LastBreak(t, Fit(t, limit));
    LastBreakBounds(t, fit);
    assert t[..fit] == t[..brk] + t[brk..fit];
    UnitsConcat(t[..brk], t[brk..fit]);
  }

  /**
   A cut falls inside a word only when every whitespace that fits lies in the
   first half of the bytes that fit, and then the piece is as long as can be.
   */
  lemma CutKeepsWords(t: Text, limit: nat)
    requires limit >= 2 && UnitsOf(t) > limit
    ensures var cut := Cut(t, limit);
            0 < cut < |t| &&
            (!IsSpace(t[cut - 1]) ==>
               && UnitsOf(t[..cut + 1]) > limit
               && forall j :: 0 < j <= cut && IsSpace(t[j - 1]) ==> Bytes(t[..j]) < Bytes(t[..cut]) / 2)
  {
    CutFits(t, limit);
    FitBounds(t, limit);
    var cut := Cut(t, limit);
    var brk := LastBreak(t, Fit(t, limit));
    LastBreakBounds(t, Fit(t, limit));
    if !IsSpace(t[cut - 1]) {
      assert cut == Fit(t, limit);
      forall j | 0 < j <= cut && IsSpace(t[j - 1]) ensures Bytes(t[..j]) < Bytes(t[..cut]) / 2 {
        EarlyBreak(t, j, brk, cut);
      }
    }
  }

  /** Every whitespace ends no later than the last one. */
  lemma EarlyBreak(t: Text, j: nat, brk: nat, cut: nat)
    requires 0 < j <= cut <= |t| && brk <= cut && IsSpace(t[j - 1])
    requires forall k :: brk <= k < cut ==> !IsSpace(t[k])
    requires brk > 0 ==> Bytes(t[..brk]) < Bytes(t[..cut]) / 2
    ensures Bytes(t[..j]) < Bytes(t[..cut]) / 2
  {
    assert j <= brk;
    PrefixBytes(t, j, brk);
  }

  lemma PrefixBytes(t: Text, j: nat, k: nat)
    requires j <= k <= |t|
    ensures Bytes(t[..j]) <= Bytes(t[..k])
  {
    assert t[..k] == t[..j] + t[j..k];
    BytesConcat(t[..j], t[j..k]);
  }

  /** With a budget below two, a message can begin with a glyph that never fits, and an iteration changes nothing. */
  lemma SmallBudgetStalls(limit: nat)
    requires limit < 2
    ensures exists t :: UnitsOf(t) > limit && Cut(t, limit) == 0 && TrimLeft(t[Cut(t, limit)..]) == t
  {
    var g := Scalar('\U{1F600}');
    var t := [g];
    assert UnitsOf(t) == 2;
    assert Fit(t, limit) == 0;
    assert Cut(t, limit) == 0 && TrimLeft(t[0..]) == t;
  }

  // ---- all pieces ----

  function Pieces(t: Text, limit: nat): seq<Text>
    requires limit >= 2
    decreases |t|
  {
    if UnitsOf(t) <= limit then (if t == [] then [] else [t])
    else
      CutAdvances(t, limit);
      TrimLeftSplits(t[Cut(t, limit)..]);
      [TrimRight(t[..Cut(t, limit)])] + Pieces(TrimLeft(t[Cut(t, limit)..]), limit)
  }

  lemma TrimmedFits(t: Text)
    ensures UnitsOf(TrimRight(t)) <= UnitsOf(t)
  {
    TrimRightSplits(t);
    assert t == TrimRight(t) + t[|TrimRight(t)|..];
    UnitsConcat(TrimRight(t), t[|TrimRight(t)|..]);
  }

  lemma {:induction false} PiecesFit(t: Text, limit: nat)
    requires limit >= 2
    ensures forall i :: 0 <= i < |Pieces(t, limit)| ==> UnitsOf(Pieces(t, limit)[i]) <= limit
    decreases |t|
  {
    if UnitsOf(t) > limit {
      var head, rest := t[..Cut(t, limit)], TrimLeft(t[Cut(t, limit)..]);
      CutAdvances(t, limit);
      CutFits(t, limit);
      TrimLeftSplits(t[Cut(t, limit)..]);
      TrimmedFits(head);
      PiecesFit(rest, limit);
      assert Pieces(t, limit) == [TrimRight(head)] + Pieces(rest, limit);
    }
  }

  /** The text is the pieces in order, with nothing but whitespace before, between and after them. */
  ghost predicate Covers(t: Text, pieces: seq<Text>)
    decreases |pieces|
  {
    if pieces == [] then AllSpace(t)
    else exists i: nat, j: nat :: StartsAt(t, pieces[0], i, j) && Covers(t[j..], pieces[1..])
  }

  predicate StartsAt(t: Text, piece: Text, i: nat, j: nat) {
    i <= j <= |t| && AllSpace(t[..i]) && t[i..j] == piece
  }

  lemma CoversMore(t: Text, piece: Text, i: nat, j: nat, pieces: seq<Text>)
    requires StartsAt(t, piece, i, j) && Covers(t[j..], pieces)
    ensures Covers(t, [piece] + pieces)
  {
    var all := [piece] + pieces;
    assert all[0] == piece && all[1..] == pieces;
  }

  lemma SkipSpace(t: Text, k: nat, pieces: seq<Text>)
    requires k <= |t| && AllSpace(t[..k]) && Covers(t[k..], pieces)
    ensures Covers(t, pieces)
  {
    if pieces == [] {
      assert t == t[..k] + t[k..];
    } else {
      var i: nat, j: nat :| StartsAt(t[k..], pieces[0], i, j) && Covers(t[k..][j..], pieces[1..]);
      assert i <= j <= |t[k..]|;
      assert t[k..][..i] == t[k..k + i];
      assert t[..k + i] == t[..k] + t[k..k + i];
      assert t[k + i..k + j] == t[k..][i..j];
      assert t[k + j..] == t[k..][j..];
      assert StartsAt(t, pieces[0], k + i, k + j);
    }
  }

  lemma {:induction false} PiecesCover(t: Text, limit: nat)
    requires limit >= 2
    ensures Covers(t, Pieces(t, limit))
    decreases |t|
  {
    if UnitsOf(t) <= limit {
      if t != [] {
        CoversMore(t, t, 0, |t|, []);
        assert [t] + [] == [t];
      }
    } else {
      var rest := TrimLeft(t[Cut(t, limit)..]);
      CutAdvances(t, limit);
      TrimLeftSplits(t[Cut(t, limit)..]);
      PiecesCover(rest, limit);
      CutCovers(t, Cut(t, limit), Pieces(rest, limit));
    }
  }

  lemma TrimLeftCovers(t: Text, pieces: seq<Text>)
    requires Covers(TrimLeft(t), pieces)
    ensures Covers(t, pieces)
  {
    TrimLeftSplits(t);
    SkipSpace(t, |t| - |TrimLeft(t)|, pieces);
  }

  lemma TrimRightCovers(t: Text, cut: nat, pieces: seq<Text>)
    requires cut <= |t| && Covers(t[cut..], pieces)
    ensures |TrimRight(t[..cut])| <= cut && Covers(t[|TrimRight(t[..cut])|..], pieces)
    ensures StartsAt(t, TrimRight(t[..cut]), 0, |TrimRight(t[..cut])|)
  {
    TrimRightSplits(t[..cut]);
    var k := |TrimRight(t[..cut])|;
    assert t[..cut][k..] == t[k..cut] && t[0..k] == t[..cut][..k];
    SkipBack(t, k, cut, pieces);
  }

  lemma SkipBack(t: Text, k: nat, cut: nat, pieces: seq<Text>)
    requires k <= cut <= |t| && AllSpace(t[k..cut]) && Covers(t[cut..], pieces)
    ensures Covers(t[k..], pieces)
  {
    assert t[k..][..cut - k] == t[k..cut] && t[k..][cut - k..] == t[cut..];
    SkipSpace(t[k..], cut - k, pieces);
  }

  /** One cut loses only whitespace on both of its sides. */
  lemma CutCovers(t: Text, cut: nat, pieces: seq<Text>)
    requires cut <= |t| && Covers(TrimLeft(t[cut..]), pieces)
    ensures Covers(t, [TrimRight(t[..cut])] + pieces)
  {
    TrimLeftCovers(t[cut..], pieces);
    TrimRightCovers(t, cut, pieces);
    CoversMore(t, TrimRight(t[..cut]), 0, |TrimRight(t[..cut])|, pieces);
  }

  /** Pieces of a solid text are solid. */
  lemma {:induction false} PiecesSolid(t: Text, limit: nat)
    requires limit >= 2 && Solid(t)
    ensures forall i :: 0 <= i < |Pieces(t, limit)| ==> Solid(Pieces(t, limit)[i])
    decreases |t|
  {
    if UnitsOf(t) > limit {
      var cut := Cut(t, limit);
      CutFits(t, limit);
      CutPartsSolid(t, cut);
      PiecesSolid(TrimLeft(t[cut..]), limit);
      assert Pieces(t, limit) == [TrimRight(t[..cut])] + Pieces(TrimLeft(t[cut..]), limit);
    }
  }

  /** Both parts of a solid text, trimmed where it was cut, are solid and no longer than it. */
  lemma CutPartsSolid(t: Text, cut: nat)
    requires Solid(t) && 0 < cut < |t|
    ensures Solid(TrimRight(t[..cut]))
    ensures Solid(TrimLeft(t[cut..])) && |TrimLeft(t[cut..])| < |t|
  {
    var head, tail := t[..cut], t[cut..];
    TrimRightSplits(head);
    assert head[0] == t[0];
    TrimLeftSplits(tail);
    var rest := TrimLeft(tail);
    assert tail[|tail| - 1] == t[|t| - 1];
    assert rest != [] && rest[|rest| - 1] == t[|t| - 1];
  }

  // ---- the loops ----

  method Utf16Units(s: Text) returns (units: nat)
    ensures units == UnitsOf(s)
  {
    units := 0;
    for i := 0 to |s|
      invariant units == UnitsOf(s[..i])
    {
      assert s[..i + 1][..i] == s[..i];
      units := units + 1;
      if RuneValue(s[i]) > 0xFFFF {
        units := units + 1;
      }
    }
    assert s[..|s|] == s;
  }

  /**
   The scan for one cut. Offsets are kept in bytes, as the code compares them,
   and in glyphs, as they index the text.
   */
  method FindCut(content: Text, limit: nat) returns (cut: nat)
    requires UnitsOf(content) > limit
    ensures cut == Cut(content, limit)
  {
    var units, cutBytes, lastBreak, lastBreakBytes := 0, 0, 0, 0;
    var i, index := 0, 0;
    cut := 0;
    assert content[0..] == content;
    while i < |content|
      invariant 0 <= i <= |content|
      invariant units == UnitsOf(content[..i]) && units <= limit
      invariant index == Bytes(content[..i])
      invariant lastBreak == LastBreak(content, i) <= i && lastBreakBytes == Bytes(content[..lastBreak])
      invariant Fit(content, limit) == i + Fit(content[i..], limit - units)
    {
      var g := content[i];
      var width := 1;
      if RuneValue(g) > 0xFFFF {
        width := 2;
      }
      if units + width > limit {
        cut, cutBytes := i, index;
        break;
      }
      assert content[..i + 1][..i] == content[..i];
      assert content[i..][1..] == content[i + 1..];
      units := units + width;
      cut, cutBytes := i + 1, index + RuneLen(RuneValue(g));
      index := index + Width(g);
      i := i + 1;
      if IsSpace(g) {
        lastBreak, lastBreakBytes := cut, cutBytes;
      }
    }
    assert content[..|content|] == content;
    if lastBreak > 0 && lastBreakBytes >= cutBytes / 2 {
      cut := lastBreak;
    }
  }

  method SplitByUtf16Limit(text: Text, limit: nat) returns (chunks: seq<Text>)
    requires limit >= 2
    ensures chunks == Pieces(text, limit)
  {
    var content := text;
    chunks := [];
    var units := Utf16Units(content);
    while units > limit
      invariant units == UnitsOf(content)
      invariant chunks + Pieces(content, limit) == Pieces(text, limit)
      decreases |content|
    {
      CutAdvances(content, limit);
      var cut := FindCut(content, limit);
      TrimLeftSplits(content[cut..]);
      chunks := chunks + [TrimRight(content[..cut])];
      content := TrimLeft(content[cut..]);
      units := Utf16Units(content);
    }
    if content != [] {
      chunks := chunks + [content];
    }
  }
}
