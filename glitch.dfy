/** The glitch text: at each glitch interval, three frames each overwrite a few
    distinct positions of the text with glyphs, then the text is shown plain
    again. Math.random() draws are parameters: a position draw is the integer
    Math.floor(Math.random() * length) yields, a glyph draw the index into the
    glyph alphabet. */
module Glitch {

  datatype Intensity = Low | Medium | High

  /** The glyph alphabet. The source file spells an em dash in three
      characters (U+00E2, U+20AC, U+201D), and they are taken as they stand. */
  const GlitchChars: string := "!<>-_\\/[]{}\U{E2}\U{20AC}\U{201D}=+*^?#________"

  const GlitchFrames: nat := 3

  function Max(a: int, b: int): int { if a < b then b else a }
  function Min(a: int, b: int): int { if a < b then a else b }

  /** getGlitchAmount, reading Math.floor(len * 0.1), 0.2 and 0.3 as integer
      division by 10, 5 and 10/3. */
  function GlitchAmount(intensity: Intensity, len: nat): (n: nat)
    ensures n >= 1
  {
    match intensity
    case Low => Max(1, len / 10)
    case High => Max(3, len * 3 / 10)
    case Medium => Max(2, len / 5)
  }

  /** The shortest text for which the amount fits among the positions that can
      be drawn. */
  function ShortestGlitchable(intensity: Intensity): nat {
    match intensity
    case Low => 0
    case Medium => 2
    case High => 3
  }

  /** Math.floor(Math.random() * len) lies below `len`, and is 0 for an empty
      text: the positions that can be drawn are the numbers below max(len, 1). */
  predicate IsDraw(p: nat, len: nat) {
    p < Max(len, 1)
  }

  predicate AllDraws(draws: seq<nat>, len: nat) {
    forall i | 0 <= i < |draws| :: IsDraw(draws[i], len)
  }

  /** The distinct positions a sequence of draws adds to a set. */
  function Drawn(draws: seq<nat>): set<nat> {
    set i | 0 <= i < |draws| :: draws[i]
  }

  function Elements(s: seq<nat>): set<nat> {
    set x | x in s
  }

  predicate Distinct(s: seq<nat>) {
    forall j, k | 0 <= j < k < |s| :: s[j] != s[k]
  }

  /** A set of numbers below `n` has at most `n` members. */
  lemma {:induction false} BelowBound(s: set<nat>, n: nat)
    requires forall x | x in s :: x < n
    ensures |s| <= n
  {
    if n == 0 {
      assert s == {};
    } else {
      BelowBound(s - {n - 1}, n - 1);
    }
  }

  /** A sequence without repetitions has as many elements as its length. */
  lemma {:induction false} DistinctCard(s: seq<nat>)
    requires Distinct(s)
    ensures |Elements(s)| == |s|
  {
    if s != [] {
      var t := s[..|s| - 1];
      DistinctCard(t);
      assert Elements(s) == Elements(t) + {s[|s| - 1]};
      assert s[|s| - 1] !in Elements(t);
    }
  }

  /** However many draws are made, they yield at most max(len, 1) distinct
      positions. */
  lemma DrawnBound(draws: seq<nat>, len: nat)
    requires AllDraws(draws, len)
    ensures |Drawn(draws)| <= Max(len, 1)
  {
    BelowBound(Drawn(draws), Max(len, 1));
  }

  /** The amount fits among the drawable positions exactly for texts of at
      least the shortest glitchable length. */
  lemma GlitchAmountFits(intensity: Intensity, len: nat)
    ensures GlitchAmount(intensity, len) <= Max(len, 1) <==> len >= ShortestGlitchable(intensity)
  {
  }

  /** Drawing 0, 1, ..., n - 1 in turn yields n distinct positions. */
  lemma {:induction false} CountingDraws(n: nat)
    ensures |Drawn(seq(n, i => i))| == n
  {
    var d := seq(n, i => i);
    assert Drawn(d) == Elements(d);
    DistinctCard(d);
  }

  /** While fewer distinct positions are held than all the draws yield, some
      draw is still unused. */
  lemma DrawsRemain(order: seq<nat>, draws: seq<nat>, used: nat)
    requires Distinct(order) && used <= |draws|
    requires Elements(order) == Drawn(draws[..used])
    requires |order| < |Drawn(draws)|
    ensures used < |draws|
  {
    DistinctCard(order);
    assert draws[..|draws|] == draws;
  }

  lemma DrawnStep(draws: seq<nat>, used: nat)
    requires used < |draws|
    ensures Drawn(draws[..used + 1]) == Drawn(draws[..used]) + {draws[used]}
  {
    assert draws[..used + 1] == draws[..used] + [draws[used]];
  }

  /** The distinct values of `s` in the order of their first occurrence: the
      members of a JavaScript Set that the values were added to, in the order
      the Set iterates them. */
  function FirstOccurrences(s: seq<nat>): (r: seq<nat>)
    ensures Distinct(r) && Elements(r) == Drawn(s)
  {
    if s == [] then []
    else
      var f := FirstOccurrences(s[..|s| - 1]);
      var x := s[|s| - 1];
      assert s[..|s|] == s;
      DrawnStep(s, |s| - 1);
      if x in f then f
      else
        assert Elements(f + [x]) == Elements(f) + {x};
        f + [x]
  }

  /** The position loop of createGlitchText, `while (positions.size < amount)
      positions.add(draw)`, given the draws it makes. It needs a draw sequence
      that yields at least `amount` distinct positions; it returns the
      positions in the order the Set keeps them (first insertion) and the
      number of draws consumed. */
  method PickPositions(len: nat, amount: nat, draws: seq<nat>) returns (order: seq<nat>, used: nat)
    requires AllDraws(draws, len)
    requires amount <= |Drawn(draws)|
    ensures |order| == amount && Distinct(order)
    ensures forall k | 0 <= k < |order| :: IsDraw(order[k], len)
    ensures used <= |draws| && Elements(order) == Drawn(draws[..used])
    ensures order == FirstOccurrences(draws[..used])
    ensures used > 0 ==> |FirstOccurrences(draws[..used - 1])| < amount
  {
    order, used := [], 0;
    while |order| < amount
      invariant used <= |draws| && |order| <= amount
      invariant order == FirstOccurrences(draws[..used])
      invariant used > 0 ==> |FirstOccurrences(draws[..used - 1])| < amount
      invariant forall k | 0 <= k < |order| :: IsDraw(order[k], len)
      decreases |draws| - used
    {
      DrawsRemain(order, draws, used);
      var p := draws[used];
      assert draws[..used + 1][..used] == draws[..used];
      if p !in order {
        order := order + [p];
      }
      used := used + 1;
    }
  }

  /** The position loop exits only when the amount fits among the drawable
      positions: below the shortest glitchable length, no sequence of draws,
      however long, ever yields `GlitchAmount` distinct positions, so
      createGlitchText as written never returns (a medium text of length 0 or
      1, a high one of length 0, 1 or 2). */
  lemma ShortTextLoopNeverExits(intensity: Intensity, len: nat, draws: seq<nat>)
    requires len < ShortestGlitchable(intensity)
    requires AllDraws(draws, len)
    ensures |Drawn(draws)| < GlitchAmount(intensity, len)
  {
    DrawnBound(draws, len);
    GlitchAmountFits(intensity, len);
  }

  /** `textArray[pos] = glyph` for each position in turn, on a JavaScript
      array: a write one past the end appends. */
  function OverwriteAsWritten(chars: seq<char>, order: seq<nat>, glyphs: seq<nat>): (r: seq<char>)
    requires |order| <= |glyphs|
    requires forall k | 0 <= k < |glyphs| :: glyphs[k] < |GlitchChars|
    requires forall k | 0 <= k < |order| :: order[k] <= |chars|
    ensures |chars| <= |r| <= |chars| + |order|
    ensures (forall k | 0 <= k < |order| :: order[k] < |chars|) ==> |r| == |chars|
    ensures (exists k | 0 <= k < |order| :: order[k] == |chars|) ==> |r| > |chars|
    decreases |order|
  {
    if order == [] then chars
    else
      var c := GlitchChars[glyphs[0]];
      var next := if order[0] < |chars| then chars[order[0] := c] else chars + [c];
      OverwriteAsWritten(next, order[1..], glyphs[1..])
  }

  /** As written, an empty text at low intensity asks for one position; the
      only drawable one is 0, and writing there lengthens the empty array, so
      the glitched text has one glyph where the text has none. */
  lemma EmptyTextGainsGlyph()
    ensures GlitchAmount(Low, 0) == 1 && IsDraw(0, 0) && Drawn([0]) == {0}
    ensures OverwriteAsWritten([], [0], [0]) == "!"
  {
    assert Drawn([0]) == {0} by {
      assert [0][0] == 0;
    }
  }

  /** The amount of positions to glitch, kept within the text: the same as
      getGlitchAmount whenever that fits, the whole text otherwise. */
  function CappedGlitchAmount(intensity: Intensity, len: nat): (n: nat)
    ensures n <= len
    ensures len >= ShortestGlitchable(intensity) && len > 0 ==> n == GlitchAmount(intensity, len)
    ensures len > 0 ==> n >= 1
  {
    GlitchAmountFits(intensity, len);
    Min(GlitchAmount(intensity, len), len)
  }

  /** For every text some draws let the position loop finish with the capped
      amount. */
  lemma CappedAmountReachable(intensity: Intensity, len: nat)
    ensures var draws := seq(len, i => i);
      AllDraws(draws, len) && CappedGlitchAmount(intensity, len) <= |Drawn(draws)|
  {
    CountingDraws(len);
  }

  /** createGlitchText with the capped amount: a text of the same length in
      which the positions are the distinct draws in the order first drawn,
      taken until there are enough of them; the k-th of them holds the k-th
      glyph, and every other character is the text's own. */
  method CreateGlitchText(text: string, intensity: Intensity, draws: seq<nat>, glyphs: seq<nat>)
    returns (glitched: string, ghost positions: seq<nat>, ghost used: nat)
    requires AllDraws(draws, |text|)
    requires CappedGlitchAmount(intensity, |text|) <= |Drawn(draws)|
    requires CappedGlitchAmount(intensity, |text|) <= |glyphs|
    requires forall k | 0 <= k < |glyphs| :: glyphs[k] < |GlitchChars|
    ensures |glitched| == |text|
    ensures |positions| == CappedGlitchAmount(intensity, |text|) && Distinct(positions)
    ensures used <= |draws| && positions == FirstOccurrences(draws[..used])
    ensures used > 0 ==> |FirstOccurrences(draws[..used - 1])| < |positions|
    ensures forall k | 0 <= k < |positions| ::
      positions[k] < |text| && glitched[positions[k]] == GlitchChars[glyphs[k]]
    ensures forall i | 0 <= i < |text| && i !in positions :: glitched[i] == text[i]
  {
    var amount := CappedGlitchAmount(intensity, |text|);
    var order, n := PickPositions(|text|, amount, draws);
    var chars := new char[|text|](i requires 0 <= i < |text| => text[i]);
    var k := 0;
    while k < |order|
      invariant 0 <= k <= |order|
      invariant forall j | 0 <= j < k :: chars[order[j]] == GlitchChars[glyphs[j]]
      invariant forall i | 0 <= i < |text| && i !in order[..k] :: chars[i] == text[i]
    {
      chars[order[k]] := GlitchChars[glyphs[k]];
      k := k + 1;
    }
    glitched := chars[..];
    positions, used := order, n;
  }

  /** `g` could be a frame of `text`: the same length, and every character
      either the text's own or a glyph. */
  ghost predicate IsGlitchOf(g: string, text: string) {
    |g| == |text| && forall i | 0 <= i < |g| :: g[i] == text[i] || g[i] in GlitchChars
  }

  /** The glitch state of one GlitchText: whether a burst is running, the frame
      shown during it, and the frames done in it. */
  class GlitchDisplay {
    const text: string
    const intensity: Intensity
    var isGlitching: bool
    var glitchText: string
    var frameCount: nat

    ghost predicate Valid()
      reads this
    {
      frameCount < GlitchFrames && IsGlitchOf(glitchText, text) &&
      (!isGlitching ==> glitchText == text && frameCount == 0)
    }

    /** What is rendered: the text itself outside a burst, and a frame of it
        during one. */
    function Shown(): (shown: string)
      reads this
      ensures !isGlitching ==> shown == text
      ensures Valid() ==> IsGlitchOf(shown, text)
    {
      if isGlitching then glitchText else text
    }

    constructor (text: string, intensity: Intensity := Medium)
      ensures Valid() && this.text == text && this.intensity == intensity
      ensures !isGlitching && Shown() == text
    {
      this.text := text;
      this.intensity := intensity;
      isGlitching := false;
      glitchText := text;
      frameCount := 0;
    }

    /** The glitch interval: a burst starts unless one is running. */
    method IntervalTick()
      requires Valid()
      modifies this`isGlitching, this`frameCount
      ensures Valid() && isGlitching && glitchText == old(glitchText)
      ensures old(isGlitching) ==> frameCount == old(frameCount)
      ensures !old(isGlitching) ==> frameCount == 0
    {
      if !isGlitching {
        isGlitching := true;
        frameCount := 0;
      }
    }

    /** One frame of a burst: show a fresh glitched text; after the third frame
        show the text itself and end the burst. */
    method FrameTick(draws: seq<nat>, glyphs: seq<nat>)
      requires Valid() && isGlitching
      requires AllDraws(draws, |text|)
      requires CappedGlitchAmount(intensity, |text|) <= |Drawn(draws)|
      requires CappedGlitchAmount(intensity, |text|) <= |glyphs|
      requires forall k | 0 <= k < |glyphs| :: glyphs[k] < |GlitchChars|
      modifies this`isGlitching, this`glitchText, this`frameCount
      ensures Valid()
      ensures old(frameCount) + 1 < GlitchFrames ==> isGlitching && frameCount == old(frameCount) + 1
      ensures old(frameCount) + 1 >= GlitchFrames ==> !isGlitching && Shown() == text
    {
      var g, _, _ := CreateGlitchText(text, intensity, draws, glyphs);
      glitchText := g;
      frameCount := frameCount + 1;
      if frameCount >= GlitchFrames {
        glitchText := text;
        isGlitching := false;
        frameCount := 0;
      }
    }
  }

  /** A whole burst: three frames after an interval tick, and the text is
      shown plain again with no burst running. */
  method GlitchBurst(display: GlitchDisplay, draws: seq<seq<nat>>, glyphs: seq<seq<nat>>)
    requires display.Valid() && !display.isGlitching
    requires |draws| == |glyphs| == GlitchFrames
    requires forall f | 0 <= f < GlitchFrames ::
      AllDraws(draws[f], |display.text|) &&
      CappedGlitchAmount(display.intensity, |display.text|) <= |Drawn(draws[f])| &&
      CappedGlitchAmount(display.intensity, |display.text|) <= |glyphs[f]| &&
      forall k | 0 <= k < |glyphs[f]| :: glyphs[f][k] < |GlitchChars|
    modifies display
    ensures display.Valid() && !display.isGlitching && display.Shown() == display.text
  {
    display.IntervalTick();
    var f := 0;
    while display.isGlitching
      invariant display.Valid()
      invariant display.isGlitching ==> display.frameCount == f < GlitchFrames
      decreases GlitchFrames - f
    {
      display.FrameTick(draws[f], glyphs[f]);
      f := f + 1;
    }
  }
}
