/** drawTextWithVariation (script.js): each word of a line is drawn with a
    small random vertical offset, font-size change and rotation, inside its
    own save/restore pair, and the x cursor then advances by the width of
    the word plus one space under the line's unjittered font.

    The three Math.random draws of the k-th word are an injected parameter
    `rnd(k)`, so the model is deterministic in them. */
module Variation {
  import opened JsString
  import opened Canvas

  /** The three Math.random values drawn for one word, in call order. */
  datatype Randoms = Randoms(forOffset: real, forSize: real, forRotation: real)

  /** What one fillText call draws: the word, the translated origin, the
      jittered font size and the rotation. */
  datatype WordDraw = WordDraw(word: string, x: real, y: real, size: real, rotation: real)

  /** Math.random() lies in [0, 1). */
  predicate InUnit(v: real) {
    0.0 <= v < 1.0
  }

  predicate ValidRandoms(r: Randoms) {
    InUnit(r.forOffset) && InUnit(r.forSize) && InUnit(r.forRotation)
  }

  /** One word drawn at cursor `x` on baseline `y`, jittered by `r`. */
  function Jitter(word: string, x: real, y: real, fontSize: int, r: Randoms): WordDraw {
    WordDraw(word, x, y + (r.forOffset - 0.5) * 2.0, fontSize as real + (r.forSize - 0.5) * 2.0, (r.forRotation - 0.5) * 0.05)
  }

  /** The jitter keeps the word and the cursor, and with genuine random
      values moves the word by less than one pixel up or down, changes the
      font size by less than one pixel and rotates by less than 0.025 rad. */
  lemma JitterBounds(word: string, x: real, y: real, fontSize: int, r: Randoms)
    requires ValidRandoms(r)
    ensures var d := Jitter(word, x, y, fontSize, r);
      && d.word == word && d.x == x
      && y - 1.0 <= d.y < y + 1.0
      && fontSize as real - 1.0 <= d.size < fontSize as real + 1.0
      && -0.025 <= d.rotation < 0.025
  {
  }

  /** How far the cursor moves past `words`: each word's width with one
      trailing space. */
  function Advance(words: seq<string>, measure: Measure): real {
    if |words| == 0 then 0.0 else Advance(words[..|words| - 1], measure) + measure(words[|words| - 1] + " ")
  }

  /** The reference placement: word i sits at the start x plus the advance
      of the words before it. */
  function Placements(words: seq<string>, x: real, y: real, fontSize: int, measure: Measure, rnd: nat -> Randoms): (r: seq<WordDraw>)
    ensures |r| == |words|
  {
    seq(|words|, i requires 0 <= i < |words| => Jitter(words[i], x + Advance(words[..i], measure), y, fontSize, rnd(i)))
  }

  lemma PlacementsAt(words: seq<string>, x: real, y: real, fontSize: int, measure: Measure, rnd: nat -> Randoms, i: nat)
    requires i < |words|
    ensures Placements(words, x, y, fontSize, measure, rnd)[i] == Jitter(words[i], x + Advance(words[..i], measure), y, fontSize, rnd(i))
  {
  }

  /** The words a line is drawn as. */
  function LineWords(text: string): seq<string> {
    Split(text, ' ')
  }

  lemma {:induction false} AdvancePrefix(words: seq<string>, i: nat, measure: Measure)
    requires i < |words|
    ensures Advance(words[..i + 1], measure) == Advance(words[..i], measure) + measure(words[i] + " ")
  {
    assert words[..i + 1][..i] == words[..i];
  }

  /** The forEach over the words of `text`, accumulating currentX. */
  method DrawTextWithVariation(text: string, x: real, y: real, fontSize: int, measure: Measure, rnd: nat -> Randoms)
    returns (draws: seq<WordDraw>)
    ensures draws == Placements(LineWords(text), x, y, fontSize, measure, rnd)
  {
    var words := Split(text, ' ');
    ghost var spec := Placements(words, x, y, fontSize, measure, rnd);
    var currentX := x;
    draws := [];
    for i := 0 to |words|
      invariant currentX == x + Advance(words[..i], measure)
      invariant draws == spec[..i]
    {
      var word := words[i];
      PlacementsAt(words, x, y, fontSize, measure, rnd, i);
      assert spec[..i + 1] == spec[..i] + [spec[i]];
      draws := draws + [Jitter(word, currentX, y, fontSize, rnd(i))];
      AdvancePrefix(words, i, measure);
      currentX := currentX + measure(word + " ");
    }
    assert spec[..|words|] == spec;
  }

  /** Every word of the line is drawn once, in order, and nothing else:
      rejoining the drawn words with spaces gives back the line. */
  lemma PlacementsKeepWords(text: string, x: real, y: real, fontSize: int, measure: Measure, rnd: nat -> Randoms)
    ensures var ds := Placements(LineWords(text), x, y, fontSize, measure, rnd);
      && |ds| == |LineWords(text)|
      && (forall i :: 0 <= i < |ds| ==> ds[i].word == LineWords(text)[i])
      && Join(seq(|ds|, i requires 0 <= i < |ds| => ds[i].word), ' ') == text
  {
    var words := LineWords(text);
    var ds := Placements(words, x, y, fontSize, measure, rnd);
    forall i | 0 <= i < |ds| ensures ds[i].word == words[i] {
      PlacementsAt(words, x, y, fontSize, measure, rnd, i);
    }
    assert seq(|ds|, i requires 0 <= i < |ds| => ds[i].word) == words;
    JoinSplit(text, ' ');
  }

  /** The first word starts at the given x and each later one starts where
      the previous one's advance ends. */
  lemma PlacementsAdvance(words: seq<string>, x: real, y: real, fontSize: int, measure: Measure, rnd: nat -> Randoms)
    ensures var ds := Placements(words, x, y, fontSize, measure, rnd);
      && (|ds| > 0 ==> ds[0].x == x)
      && forall i, j :: 0 <= i && j == i + 1 && j < |ds| ==> ds[j].x == ds[i].x + measure(words[i] + " ")
  {
    var ds := Placements(words, x, y, fontSize, measure, rnd);
    if |ds| > 0 {
      PlacementsAt(words, x, y, fontSize, measure, rnd, 0);
      assert words[..0] == [];
    }
    forall i, j | 0 <= i && j == i + 1 && j < |ds|
      ensures ds[j].x == ds[i].x + measure(words[i] + " ")
    {
      PlacementsAt(words, x, y, fontSize, measure, rnd, i);
      PlacementsAt(words, x, y, fontSize, measure, rnd, j);
      AdvancePrefix(words, i, measure);
    }
  }

  /** The jitter of a word never reaches another word: the x positions are
      the same whatever random values were drawn. */
  lemma CursorIgnoresJitter(words: seq<string>, x: real, y: real, fontSize: int, measure: Measure, rnd1: nat -> Randoms, rnd2: nat -> Randoms)
    ensures forall k :: 0 <= k < |words| ==>
      Placements(words, x, y, fontSize, measure, rnd1)[k].x == Placements(words, x, y, fontSize, measure, rnd2)[k].x
  {
    forall k | 0 <= k < |words|
      ensures Placements(words, x, y, fontSize, measure, rnd1)[k].x == Placements(words, x, y, fontSize, measure, rnd2)[k].x
    {
      PlacementsAt(words, x, y, fontSize, measure, rnd1, k);
      PlacementsAt(words, x, y, fontSize, measure, rnd2, k);
    }
  }

  /** What is drawn for word i depends on no random value but its own. */
  lemma JitterIsolated(words: seq<string>, x: real, y: real, fontSize: int, measure: Measure, rnd1: nat -> Randoms, rnd2: nat -> Randoms, i: nat)
    requires i < |words|
    requires rnd1(i) == rnd2(i)
    ensures Placements(words, x, y, fontSize, measure, rnd1)[i] == Placements(words, x, y, fontSize, measure, rnd2)[i]
  {
  }

  lemma {:induction false} AdvanceMonotone(words: seq<string>, i: nat, j: nat, measure: Measure)
    requires i <= j <= |words|
    requires forall s :: measure(s) >= 0.0
    ensures Advance(words[..i], measure) <= Advance(words[..j], measure)
    decreases j - i
  {
    if i < j {
      AdvanceMonotone(words, i, j - 1, measure);
      AdvancePrefix(words, j - 1, measure);
    }
  }

  /** With non-negative widths, words are placed left to right. */
  lemma PlacementsLeftToRight(words: seq<string>, x: real, y: real, fontSize: int, measure: Measure, rnd: nat -> Randoms)
    requires forall s :: measure(s) >= 0.0
    ensures var ds := Placements(words, x, y, fontSize, measure, rnd);
      forall i, j :: 0 <= i <= j < |ds| ==> x <= ds[i].x <= ds[j].x
  {
    var ds := Placements(words, x, y, fontSize, measure, rnd);
    forall i, j | 0 <= i <= j < |ds|
      ensures x <= ds[i].x <= ds[j].x
    {
      PlacementsAt(words, x, y, fontSize, measure, rnd, i);
      PlacementsAt(words, x, y, fontSize, measure, rnd, j);
      AdvanceMonotone(words, 0, i, measure);
      AdvanceMonotone(words, i, j, measure);
      assert words[..0] == [];
    }
  }
}
