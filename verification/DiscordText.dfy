/**
 Text as the splitter walks it: a Go string seen rune by rune, each with its
 width in bytes and its length in UTF-16 code units (section 2.1 of RFC 2781).
 */
module DiscordText {

  /** One step of ranging over a string: a Unicode scalar, or a byte that is no part of one. */
  datatype Glyph = Scalar(c: char) | Stray

  type Text = seq<Glyph>

  function RuneValue(g: Glyph): int {
    if g.Scalar? then g.c as int else 0xFFFD
  }

  function RuneLen(rune: int): nat {
    if rune < 0x80 then 1 else if rune < 0x800 then 2 else if rune < 0x1_0000 then 3 else 4
  }

  /** Bytes the glyph occupies; a stray byte decodes to U+FFFD but is one byte wide. */
  function Width(g: Glyph): nat {
    if g.Scalar? then RuneLen(RuneValue(g)) else 1
  }

  function Units(g: Glyph): nat {
    if RuneValue(g) > 0xFFFF then 2 else 1
  }

  predicate IsSpace(g: Glyph) {
    var r := RuneValue(g);
    || 0x09 <= r <= 0x0D || r == 0x20 || r == 0x85 || r == 0xA0 || r == 0x1680 || 0x2000 <= r <= 0x200A
    || r == 0x2028 || r == 0x2029 || r == 0x202F || r == 0x205F || r == 0x3000
  }

  function UnitsOf(t: Text): nat {
    if t == [] then 0 else UnitsOf(t[..|t| - 1]) + Units(t[|t| - 1])
  }

  function Bytes(t: Text): nat {
    if t == [] then 0 else Bytes(t[..|t| - 1]) + Width(t[|t| - 1])
  }

  predicate AllSpace(t: Text) {
    forall i :: 0 <= i < |t| ==> IsSpace(t[i])
  }

  function TrimRight(t: Text): Text {
    if t != [] && IsSpace(t[|t| - 1]) then TrimRight(t[..|t| - 1]) else t
  }

  function TrimLeft(t: Text): Text {
    if t != [] && IsSpace(t[0]) then TrimLeft(t[1..]) else t
  }

  function Trim(t: Text): Text {
    TrimLeft(TrimRight(t))
  }

  /** Begins and ends with something other than whitespace. */
  predicate Solid(t: Text) {
    t != [] && !IsSpace(t[0]) && !IsSpace(t[|t| - 1])
  }

  // ---- sums over concatenations ----

  lemma {:induction false} UnitsConcat(a: Text, b: Text)
    ensures UnitsOf(a + b) == UnitsOf(a) + UnitsOf(b)
  {
    if b == [] {
      assert a + b == a;
    } else {
      var k := |b| - 1;
      assert (a + b)[..|a + b| - 1] == a + b[..k];
      UnitsConcat(a, b[..k]);
    }
  }

  lemma {:induction false} BytesConcat(a: Text, b: Text)
    ensures Bytes(a + b) == Bytes(a) + Bytes(b)
  {
    if b == [] {
      assert a + b == a;
    } else {
      var k := |b| - 1;
      assert (a + b)[..|a + b| - 1] == a + b[..k];
      BytesConcat(a, b[..k]);
    }
  }

  lemma {:induction false} UnitsWithinBytes(t: Text)
    ensures UnitsOf(t) <= Bytes(t)
  {
    if t != [] {
      UnitsWithinBytes(t[..|t| - 1]);
    }
  }

  // ---- trimming ----

  /** Trimming on the right removes exactly a whitespace tail, down to a solid end. */
  lemma {:induction false} TrimRightSplits(t: Text)
    ensures TrimRight(t) <= t && AllSpace(t[|TrimRight(t)|..])
    ensures TrimRight(t) == [] || !IsSpace(t[|TrimRight(t)| - 1])
  {
    if t != [] && IsSpace(t[|t| - 1]) {
      TrimRightSplits(t[..|t| - 1]);
      var k := |TrimRight(t)|;
      assert t[k..] == t[..|t| - 1][k..] + [t[|t| - 1]];
    }
  }

  lemma {:induction false} TrimLeftSplits(t: Text)
    ensures |TrimLeft(t)| <= |t| && t[|t| - |TrimLeft(t)|..] == TrimLeft(t)
    ensures AllSpace(t[..|t| - |TrimLeft(t)|])
    ensures TrimLeft(t) == [] || !IsSpace(TrimLeft(t)[0])
  {
    if t != [] && IsSpace(t[0]) {
      TrimLeftSplits(t[1..]);
      var k := |t| - |TrimLeft(t)|;
      assert t[..k] == [t[0]] + t[1..][..k - 1];
    }
  }

  /** What is left after trimming both ends, as a part of the text. */
  lemma TrimmedPart(t: Text, r: Text, l: Text, i: nat)
    requires r <= t && AllSpace(t[|r|..]) && i + |l| == |r| && r[i..] == l && AllSpace(r[..i])
    ensures t[i..|r|] == l && AllSpace(t[..i])
  {
    assert t[..|r|] == r;
    assert t[i..|r|] == t[..|r|][i..];
    assert t[..i] == t[..|r|][..i];
  }

  lemma TrimIsSolid(t: Text)
    ensures Trim(t) == [] || Solid(Trim(t))
    ensures exists i, j :: 0 <= i <= j <= |t| && t[i..j] == Trim(t) && AllSpace(t[..i]) && AllSpace(t[j..])
  {
    var r := TrimRight(t);
    var l := TrimLeft(r);
    TrimRightSplits(t);
    TrimLeftSplits(r);
    TrimmedPart(t, r, l, |r| - |l|);
    if l != [] {
      assert l[|l| - 1] == r[|r| - 1] == t[|r| - 1];
    }
  }
}
