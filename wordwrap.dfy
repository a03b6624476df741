/** The greedy word wrap inside generateHandwrittenNotes (script.js).

    The text is split on '\n'. A segment that trims to the empty string
    only advances the cursor by one line height. Any other segment is split
    on ' ' and its words are appended to an accumulator that always ends in
    a space; before each append the candidate (accumulator, word, space) is
    measured, and when it is wider than `width - 80` while the accumulator
    is non-empty the trimmed accumulator is drawn and the word starts a new
    accumulator. At the end of the segment a not-blank accumulator is drawn.

    The cursor is kept as a line-slot index: slot k is at y = 40 + k * lineHeightPx.

    The specification is a fold over the words that groups them: `done`
    holds the groups already drawn, `cur` the words in the accumulator. */
module WordWrap {
  import opened JsString
  import opened Canvas

  /** A line handed to drawTextWithVariation: its text and its line slot. */
  datatype DrawnLine = DrawnLine(text: string, row: nat)

  /** The layout of a text: the lines drawn, in order, and how many line
      heights the cursor advanced in all. */
  datatype Page = Page(lines: seq<DrawnLine>, rows: nat)

  /** The y coordinate of line slot `row`. */
  function Y(row: nat, lineHeightPx: real): real {
    Margin as real + row as real * lineHeightPx
  }

  /** Each slot is exactly one line height below the previous one. */
  lemma YStep(i: nat, lineHeightPx: real)
    ensures Y(i + 1, lineHeightPx) == Y(i, lineHeightPx) + lineHeightPx
  {
    assert (i + 1) as real * lineHeightPx == i as real * lineHeightPx + lineHeightPx;
  }

  /** With a positive line height, later slots are strictly lower on the page. */
  lemma YIncreasing(i: nat, j: nat, lineHeightPx: real)
    requires i < j && lineHeightPx > 0.0
    ensures Y(i, lineHeightPx) < Y(j, lineHeightPx)
  {
    var d := (j - i) as real;
    assert d > 0.0;
    assert d * lineHeightPx > 0.0;
    assert j as real * lineHeightPx == i as real * lineHeightPx + d * lineHeightPx;
  }

  // ---------------------------------------------------------------------
  // Groups of words and the accumulator string

  /** The accumulator holding the words of `g`: each word followed by a space. */
  function Spaced(g: seq<string>): (s: string)
    ensures |s| >= |g|
  {
    if |g| == 0 then "" else Spaced(g[..|g| - 1]) + g[|g| - 1] + " "
  }

  /** All the words of a sequence of groups, in order. */
  function Flatten(gs: seq<seq<string>>): seq<string> {
    if |gs| == 0 then [] else Flatten(gs[..|gs| - 1]) + gs[|gs| - 1]
  }

  lemma {:induction false} SpacedAppend(g: seq<string>, w: string)
    ensures Spaced(g + [w]) == Spaced(g) + w + " "
  {
    assert (g + [w])[..|g|] == g;
  }

  lemma {:induction false} FlattenAppend(gs: seq<seq<string>>, g: seq<string>)
    ensures Flatten(gs + [g]) == Flatten(gs) + g
  {
    assert (gs + [g])[..|gs|] == gs;
  }

  /** The accumulator of a non-empty group is its words joined by single
      spaces, plus one trailing space. */
  lemma {:induction false} SpacedIsJoin(g: seq<string>)
    requires |g| >= 1
    ensures Spaced(g) == Join(g, ' ') + " "
    decreases |g|
  {
    var n := |g|;
    var init, w := g[..n - 1], g[n - 1];
    if n == 1 {
      assert g == [w];
      assert Spaced(g) == Spaced([]) + w + " ";
    } else {
      SpacedIsJoin(init);
      assert g == init + [w];
      JoinAppend(init, [w], ' ');
    }
  }

  /** The text drawn for a group of words: the trimmed accumulator. */
  function LineText(g: seq<string>): string {
    Trim(Spaced(g))
  }

  /** A drawn line is its group's words rejoined by the single spaces they
      were split at, then trimmed. */
  lemma LineTextIsTrimmedJoin(g: seq<string>)
    requires |g| >= 1
    ensures LineText(g) == Trim(Join(g, ' '))
  {
    SpacedIsJoin(g);
    TrimTrailingSpace(Join(g, ' '));
  }

  // ---------------------------------------------------------------------
  // The greedy fold

  /** The wrap state after some words: the groups already drawn and the
      words held in the accumulator. */
  datatype Wrap = Wrap(done: seq<seq<string>>, cur: seq<string>)

  /** One iteration of the inner forEach: break before `word` when the
      candidate is too wide and the accumulator is non-empty, else append. */
  function Step(st: Wrap, word: string, measure: Measure, maxWidth: int): Wrap {
    if measure(Spaced(st.cur + [word])) > maxWidth as real && st.cur != [] then
      Wrap(st.done + [st.cur], [word])
    else
      Wrap(st.done, st.cur + [word])
  }

  /** The wrap state after all of `words`, starting from an empty accumulator. */
  function Greedy(words: seq<string>, measure: Measure, maxWidth: int): Wrap {
    if |words| == 0 then Wrap([], [])
    else Step(Greedy(words[..|words| - 1], measure, maxWidth), words[|words| - 1], measure, maxWidth)
  }

  /** The groups the words of a segment fall into, the last one being the
      accumulator left at the end. */
  function Groups(words: seq<string>, measure: Measure, maxWidth: int): seq<seq<string>> {
    var st := Greedy(words, measure, maxWidth);
    if st.cur == [] then st.done else st.done + [st.cur]
  }

  /** A group fits when it is a single word or its accumulator, trailing
      space included, measures at most the maximum width. */
  predicate Fits(g: seq<string>, measure: Measure, maxWidth: int) {
    |g| == 1 || measure(Spaced(g)) <= maxWidth as real
  }

  /** Appending `w` to the group would make the candidate too wide. */
  predicate Overflows(g: seq<string>, w: string, measure: Measure, maxWidth: int) {
    measure(Spaced(g + [w])) > maxWidth as real
  }

  /** The group after the `i`-th closed group: the next closed one, or the
      accumulator after the last. */
  function Following(st: Wrap, i: nat): seq<string>
    requires i < |st.done|
  {
    if i + 1 < |st.done| then st.done[i + 1] else st.cur
  }

  /** The `i`-th closed group was closed because the first word of the group
      after it would have overflowed it. */
  predicate ClosedByOverflow(st: Wrap, i: nat, measure: Measure, maxWidth: int)
    requires i < |st.done|
  {
    Following(st, i) != [] && Overflows(st.done[i], Following(st, i)[0], measure, maxWidth)
  }

  /** Group `i + 1` starts with a word that would have overflowed group `i`. */
  predicate BreakForced(gs: seq<seq<string>>, i: nat, measure: Measure, maxWidth: int)
    requires i + 1 < |gs|
  {
    gs[i + 1] != [] && Overflows(gs[i], gs[i + 1][0], measure, maxWidth)
  }

  /** What the wrap state keeps true after `words`. */
  ghost predicate WrapInvariant(st: Wrap, words: seq<string>, measure: Measure, maxWidth: int) {
    && (st.cur == [] <==> words == [])
    && (st.cur == [] ==> st.done == [])
    && (forall i :: 0 <= i < |st.done| ==> st.done[i] != [])
    && Flatten(st.done) + st.cur == words
    && (forall i :: 0 <= i < |st.done| ==> Fits(st.done[i], measure, maxWidth))
    && (st.cur != [] ==> Fits(st.cur, measure, maxWidth))
    && (forall i :: 0 <= i < |st.done| ==> ClosedByOverflow(st, i, measure, maxWidth))
  }

  /** A break keeps the invariant: the old accumulator is closed because the
      word overflows it, and the word alone starts the new one. */
  lemma StepBreakInvariant(st: Wrap, prefix: seq<string>, w: string, measure: Measure, maxWidth: int)
    requires WrapInvariant(st, prefix, measure, maxWidth)
    requires st.cur != [] && Overflows(st.cur, w, measure, maxWidth)
    ensures WrapInvariant(Wrap(st.done + [st.cur], [w]), prefix + [w], measure, maxWidth)
  {
    var st' := Wrap(st.done + [st.cur], [w]);
    FlattenAppend(st.done, st.cur);
    forall i | 0 <= i < |st'.done|
      ensures ClosedByOverflow(st', i, measure, maxWidth)
    {
      if i < |st.done| {
        assert ClosedByOverflow(st, i, measure, maxWidth);
        assert st'.done[i] == st.done[i];
        assert Following(st', i) == Following(st, i);
      }
    }
  }

  /** An append keeps the invariant: the candidate fitted, or the
      accumulator was empty and now holds a single word. */
  lemma StepAppendInvariant(st: Wrap, prefix: seq<string>, w: string, measure: Measure, maxWidth: int)
    requires WrapInvariant(st, prefix, measure, maxWidth)
    requires st.cur == [] || !Overflows(st.cur, w, measure, maxWidth)
    ensures WrapInvariant(Wrap(st.done, st.cur + [w]), prefix + [w], measure, maxWidth)
  {
    var st' := Wrap(st.done, st.cur + [w]);
    if st.cur == [] {
      assert st.cur + [w] == [w];
    }
    forall i | 0 <= i < |st'.done|
      ensures ClosedByOverflow(st', i, measure, maxWidth)
    {
      assert ClosedByOverflow(st, i, measure, maxWidth);
      assert Following(st', i)[0] == Following(st, i)[0];
    }
  }

  lemma {:induction false} GreedyInvariant(words: seq<string>, measure: Measure, maxWidth: int)
    ensures WrapInvariant(Greedy(words, measure, maxWidth), words, measure, maxWidth)
    decreases |words|
  {
    if |words| > 0 {
      var n := |words|;
      var prefix, w := words[..n - 1], words[n - 1];
      assert words == prefix + [w];
      GreedyInvariant(prefix, measure, maxWidth);
      var st := Greedy(prefix, measure, maxWidth);
      if st.cur != [] && Overflows(st.cur, w, measure, maxWidth) {
        StepBreakInvariant(st, prefix, w, measure, maxWidth);
      } else {
        StepAppendInvariant(st, prefix, w, measure, maxWidth);
      }
    }
  }

  /** Wrapping never splits, drops or reorders a word: the groups are
      non-empty and their words, in order, are the segment's words. */
  lemma GroupsPartitionWords(words: seq<string>, measure: Measure, maxWidth: int)
    ensures forall i :: 0 <= i < |Groups(words, measure, maxWidth)| ==> Groups(words, measure, maxWidth)[i] != []
    ensures Flatten(Groups(words, measure, maxWidth)) == words
    ensures |Groups(words, measure, maxWidth)| >= 1 <==> words != []
  {
    GreedyInvariant(words, measure, maxWidth);
    var st := Greedy(words, measure, maxWidth);
    if st.cur != [] {
      FlattenAppend(st.done, st.cur);
    }
  }

  /** Every group, the last included, is a single (possibly overlong) word or
      measures at most the maximum width with its trailing space. */
  lemma GroupsFit(words: seq<string>, measure: Measure, maxWidth: int)
    ensures forall i :: 0 <= i < |Groups(words, measure, maxWidth)| ==> Fits(Groups(words, measure, maxWidth)[i], measure, maxWidth)
  {
    GreedyInvariant(words, measure, maxWidth);
  }

  /** A word too wide for a line on its own ends up alone on its line,
      when the measure never shrinks as words are added to a line. */
  lemma OverlongWordAlone(words: seq<string>, measure: Measure, maxWidth: int, i: nat, w: string)
    requires forall g: seq<string>, v :: v in g ==> measure(Spaced(g)) >= measure(v + " ")
    requires i < |Groups(words, measure, maxWidth)| && w in Groups(words, measure, maxWidth)[i]
    requires measure(w + " ") > maxWidth as real
    ensures Groups(words, measure, maxWidth)[i] == [w]
  {
    GroupsFit(words, measure, maxWidth);
    var g := Groups(words, measure, maxWidth)[i];
    assert Fits(g, measure, maxWidth);
    assert |g| == 1;
  }

  /** Under the invariant, each closed group is followed by a group whose
      first word overflows it. */
  lemma ClosedGroupsOverflow(st: Wrap, gs: seq<seq<string>>, measure: Measure, maxWidth: int)
    requires st.cur != [] && gs == st.done + [st.cur]
    requires forall i :: 0 <= i < |st.done| ==> ClosedByOverflow(st, i, measure, maxWidth)
    ensures forall i :: 0 <= i < |gs| - 1 ==> BreakForced(gs, i, measure, maxWidth)
  {
    forall i | 0 <= i < |gs| - 1
      ensures BreakForced(gs, i, measure, maxWidth)
    {
      assert ClosedByOverflow(st, i, measure, maxWidth);
      assert gs[i] == st.done[i];
      assert gs[i + 1] == Following(st, i);
    }
  }

  /** The wrap is greedy: every break happens because the next word would
      have made the candidate line too wide. */
  lemma GroupsAreMaximal(words: seq<string>, measure: Measure, maxWidth: int)
    ensures var gs := Groups(words, measure, maxWidth);
      forall i :: 0 <= i < |gs| - 1 ==> BreakForced(gs, i, measure, maxWidth)
  {
    GreedyInvariant(words, measure, maxWidth);
    var st := Greedy(words, measure, maxWidth);
    if st.cur != [] {
      ClosedGroupsOverflow(st, st.done + [st.cur], measure, maxWidth);
    }
  }

  /** The pieces of a list: each group's words joined by spaces. */
  function JoinEach(gs: seq<seq<string>>): (r: seq<string>)
    ensures |r| == |gs|
  {
    seq(|gs|, i requires 0 <= i < |gs| => Join(gs[i], ' '))
  }

  lemma {:induction false} FlattenLength(gs: seq<seq<string>>)
    requires forall i :: 0 <= i < |gs| ==> gs[i] != []
    ensures |Flatten(gs)| >= |gs|
    decreases |gs|
  {
    if |gs| > 0 {
      FlattenLength(gs[..|gs| - 1]);
    }
  }

  /** Rejoining the groups and then the lines gives back what rejoining all
      the words gives. */
  lemma {:induction false} JoinEachFlatten(gs: seq<seq<string>>)
    requires |gs| >= 1
    requires forall i :: 0 <= i < |gs| ==> gs[i] != []
    ensures Join(JoinEach(gs), ' ') == Join(Flatten(gs), ' ')
    decreases |gs|
  {
    var n := |gs|;
    var init, g := gs[..n - 1], gs[n - 1];
    assert gs == init + [g];
    FlattenAppend(init, g);
    if n == 1 {
      assert JoinEach(gs) == [Join(g, ' ')];
      assert Flatten(init) == [];
      assert Flatten(gs) == g;
    } else {
      JoinEachFlatten(init);
      assert JoinEach(gs) == JoinEach(init) + [Join(g, ' ')];
      JoinAppend(JoinEach(init), [Join(g, ' ')], ' ');
      FlattenLength(init);
      JoinAppend(Flatten(init), g, ' ');
    }
  }

  /** The wrap only breaks a segment at its spaces: joining each line's words
      with spaces and the lines with spaces gives back the segment exactly. */
  lemma SegmentRejoins(seg: string, measure: Measure, maxWidth: int)
    ensures Join(JoinEach(Groups(Split(seg, ' '), measure, maxWidth)), ' ') == seg
  {
    var words := Split(seg, ' ');
    GroupsPartitionWords(words, measure, maxWidth);
    JoinEachFlatten(Groups(words, measure, maxWidth));
    JoinSplit(seg, ' ');
  }

  // ---------------------------------------------------------------------
  // From groups to drawn lines

  /** The texts drawn for some groups. */
  function Texts(gs: seq<seq<string>>): (r: seq<string>)
    ensures |r| == |gs|
  {
    if |gs| == 0 then [] else Texts(gs[..|gs| - 1]) + [LineText(gs[|gs| - 1])]
  }

  /** The texts `ts` placed in consecutive slots starting at `row`. */
  function Number(ts: seq<string>, row: nat): (r: seq<DrawnLine>)
    ensures |r| == |ts|
  {
    if |ts| == 0 then [] else Number(ts[..|ts| - 1], row) + [DrawnLine(ts[|ts| - 1], row + |ts| - 1)]
  }

  lemma {:induction false} TextsAt(gs: seq<seq<string>>)
    ensures forall i :: 0 <= i < |gs| ==> Texts(gs)[i] == LineText(gs[i])
    decreases |gs|
  {
    if |gs| > 0 {
      TextsAt(gs[..|gs| - 1]);
    }
  }

  lemma {:induction false} NumberAt(ts: seq<string>, row: nat)
    ensures forall i :: 0 <= i < |ts| ==> Number(ts, row)[i] == DrawnLine(ts[i], row + i)
    decreases |ts|
  {
    if |ts| > 0 {
      NumberAt(ts[..|ts| - 1], row);
    }
  }

  lemma {:induction false} TextsAppend(gs: seq<seq<string>>, g: seq<string>)
    ensures Texts(gs + [g]) == Texts(gs) + [LineText(g)]
  {
    assert (gs + [g])[..|gs|] == gs;
  }

  lemma {:induction false} NumberAppend(ts: seq<string>, t: string, row: nat)
    ensures Number(ts + [t], row) == Number(ts, row) + [DrawnLine(t, row + |ts|)]
  {
    assert (ts + [t])[..|ts|] == ts;
  }

  /** The texts drawn for the words of a segment: every closed group, then
      the accumulator left at the end if it is not whitespace-only. */
  function WrapTexts(words: seq<string>, measure: Measure, maxWidth: int): seq<string> {
    var st := Greedy(words, measure, maxWidth);
    var rest := Trim(Spaced(st.cur));
    Texts(st.done) + (if rest != "" then [rest] else [])
  }

  /** The texts a non-blank segment draws. */
  function SegmentTexts(seg: string, measure: Measure, maxWidth: int): seq<string> {
    WrapTexts(Split(seg, ' '), measure, maxWidth)
  }

  lemma TextsAreTrimmedJoins(gs: seq<seq<string>>)
    requires forall i :: 0 <= i < |gs| ==> gs[i] != []
    ensures forall i :: 0 <= i < |gs| ==> Texts(gs)[i] == Trim(Join(gs[i], ' '))
  {
    TextsAt(gs);
    forall i | 0 <= i < |gs| ensures Texts(gs)[i] == Trim(Join(gs[i], ' ')) {
      LineTextIsTrimmedJoin(gs[i]);
    }
  }

  /** Each drawn line is the trimmed, space-joined text of the group at the
      same position; only the last group can go undrawn, and only when its
      words are whitespace-only. */
  lemma WrapTextsAreGroups(words: seq<string>, measure: Measure, maxWidth: int)
    requires words != []
    ensures var gs := Groups(words, measure, maxWidth);
      var ts := WrapTexts(words, measure, maxWidth);
      && |gs| >= 1
      && (|ts| == |gs| || |ts| == |gs| - 1)
      && (|ts| == |gs| - 1 <==> AllWhitespace(Join(gs[|gs| - 1], ' ')))
      && forall i :: 0 <= i < |ts| ==> ts[i] == Trim(Join(gs[i], ' '))
  {
    var st := Greedy(words, measure, maxWidth);
    GreedyInvariant(words, measure, maxWidth);
    var gs := st.done + [st.cur];
    var closed := Texts(st.done);
    var rest := LineText(st.cur);
    LineTextIsTrimmedJoin(st.cur);
    TrimSpec(Join(st.cur, ' '));
    TextsAreTrimmedJoins(st.done);
    TextsAreTrimmedJoins(gs);
    TextsAppend(st.done, st.cur);
    assert gs == Groups(words, measure, maxWidth);
    assert WrapTexts(words, measure, maxWidth) == closed + (if rest != "" then [rest] else []);
  }

  /** A segment that is not whitespace-only draws at least one line. */
  lemma NonBlankSegmentDraws(seg: string, measure: Measure, maxWidth: int)
    requires Trim(seg) != ""
    ensures |SegmentTexts(seg, measure, maxWidth)| >= 1
  {
    var words := Split(seg, ' ');
    var st := Greedy(words, measure, maxWidth);
    GreedyInvariant(words, measure, maxWidth);
    if st.done == [] {
      assert Flatten(st.done) == [];
      assert st.cur == words;
      SpacedIsJoin(words);
      JoinSplit(seg, ' ');
      TrimTrailingSpace(seg);
    }
  }

  // ---------------------------------------------------------------------
  // The whole text

  /** One call of the outer forEach callback: a whitespace-only segment
      only advances the cursor; any other draws its texts in the next slots. */
  function SegmentStep(prev: Page, seg: string, measure: Measure, maxWidth: int): Page {
    if Trim(seg) == "" then Page(prev.lines, prev.rows + 1)
    else DrawTexts(prev, SegmentTexts(seg, measure, maxWidth))
  }

  /** Texts drawn in the slots after `prev`, advancing the cursor once each. */
  function DrawTexts(prev: Page, ts: seq<string>): Page {
    Page(prev.lines + Number(ts, prev.rows), prev.rows + |ts|)
  }

  /** The outer forEach over the segments, as a fold. */
  function LayoutSegments(segs: seq<string>, measure: Measure, maxWidth: int): Page {
    if |segs| == 0 then Page([], 0)
    else SegmentStep(LayoutSegments(segs[..|segs| - 1], measure, maxWidth), segs[|segs| - 1], measure, maxWidth)
  }

  /** The layout of a text on a surface `width` pixels wide. */
  function Layout(text: string, measure: Measure, width: int): Page {
    LayoutSegments(Split(text, '\n'), measure, width - 2 * Margin)
  }

  /** How many segments are whitespace-only. */
  function BlankCount(segs: seq<string>): nat {
    if |segs| == 0 then 0
    else BlankCount(segs[..|segs| - 1]) + if Trim(segs[|segs| - 1]) == "" then 1 else 0
  }

  /** What one more segment does: a whitespace-only one draws nothing and
      advances the cursor by exactly one line; any other one draws its lines,
      at least one, in the next consecutive slots, and advances the cursor
      once per line. */
  lemma LayoutAppendSegment(segs: seq<string>, seg: string, measure: Measure, maxWidth: int)
    ensures var prev := LayoutSegments(segs, measure, maxWidth);
      var next := LayoutSegments(segs + [seg], measure, maxWidth);
      if Trim(seg) == "" then
        next == Page(prev.lines, prev.rows + 1)
      else
        var ts := SegmentTexts(seg, measure, maxWidth);
        && |ts| >= 1
        && next == Page(prev.lines + Number(ts, prev.rows), prev.rows + |ts|)
  {
    assert (segs + [seg])[..|segs|] == segs;
    if Trim(seg) != "" {
      NonBlankSegmentDraws(seg, measure, maxWidth);
    }
  }

  /** Lines in strictly increasing slots, all below `rows`. */
  ghost predicate Ordered(lines: seq<DrawnLine>, rows: nat) {
    && (forall i :: 0 <= i < |lines| ==> lines[i].row < rows)
    && (forall i, j :: 0 <= i < j < |lines| ==> lines[i].row < lines[j].row)
  }

  lemma AppendNumbered(lines: seq<DrawnLine>, rows: nat, ts: seq<string>)
    requires Ordered(lines, rows)
    ensures Ordered(lines + Number(ts, rows), rows + |ts|)
  {
    var added := Number(ts, rows);
    var all := lines + added;
    NumberAt(ts, rows);
    forall i | 0 <= i < |all| ensures all[i].row < rows + |ts| {
      if i >= |lines| {
        assert all[i] == added[i - |lines|];
      }
    }
    forall i, j | 0 <= i < j < |all| ensures all[i].row < all[j].row {
      if j >= |lines| {
        assert all[j] == added[j - |lines|];
        if i >= |lines| {
          assert all[i] == added[i - |lines|];
        }
      }
    }
  }

  /** The cursor advances once per drawn line and once per blank segment;
      every line sits in a slot above the final cursor, and the lines come
      in strictly increasing slots, in text order. */
  lemma {:induction false} LayoutRows(segs: seq<string>, measure: Measure, maxWidth: int)
    ensures var p := LayoutSegments(segs, measure, maxWidth);
      && p.rows == |p.lines| + BlankCount(segs)
      && Ordered(p.lines, p.rows)
    decreases |segs|
  {
    if |segs| > 0 {
      var init, seg := segs[..|segs| - 1], segs[|segs| - 1];
      LayoutRows(init, measure, maxWidth);
      var prev := LayoutSegments(init, measure, maxWidth);
      if Trim(seg) != "" {
        AppendNumbered(prev.lines, prev.rows, SegmentTexts(seg, measure, maxWidth));
      }
    }
  }

  /** The lines of a laid-out text are drawn at strictly increasing y when the
      line height is positive, and all above the final cursor position. */
  lemma LayoutYIncreasing(text: string, measure: Measure, width: int, lineHeightPx: real)
    requires lineHeightPx > 0.0
    ensures var p := Layout(text, measure, width);
      && (forall i, j :: 0 <= i < j < |p.lines| ==>
            Y(p.lines[i].row, lineHeightPx) < Y(p.lines[j].row, lineHeightPx))
      && (forall i :: 0 <= i < |p.lines| ==> Y(p.lines[i].row, lineHeightPx) < Y(p.rows, lineHeightPx))
  {
    var p := Layout(text, measure, width);
    LayoutRows(Split(text, '\n'), measure, width - 2 * Margin);
    forall i, j | 0 <= i < j < |p.lines|
      ensures Y(p.lines[i].row, lineHeightPx) < Y(p.lines[j].row, lineHeightPx)
    {
      YIncreasing(p.lines[i].row, p.lines[j].row, lineHeightPx);
    }
    forall i | 0 <= i < |p.lines|
      ensures Y(p.lines[i].row, lineHeightPx) < Y(p.rows, lineHeightPx)
    {
      YIncreasing(p.lines[i].row, p.rows, lineHeightPx);
    }
  }

  // ---------------------------------------------------------------------
  // The loops of generateHandwrittenNotes

  /** The wrap loop: the lines drawn and the final cursor slot. */
  method WrapText(text: string, measure: Measure, width: int) returns (lines: seq<DrawnLine>, rows: nat)
    ensures Page(lines, rows) == Layout(text, measure, width)
  {
    var segs := Split(text, '\n');
    var maxWidth := width - 2 * Margin;
    lines, rows := [], 0;
    for s := 0 to |segs|
      invariant Page(lines, rows) == LayoutSegments(segs[..s], measure, maxWidth)
    {
      assert segs[..s + 1][..s] == segs[..s];
      lines, rows := WrapSegment(segs[s], measure, maxWidth, lines, rows);
    }
    assert segs[..|segs|] == segs;
  }

  /** Greedy over one more word of `words` takes one more step. */
  lemma GreedyPrefix(words: seq<string>, i: nat, measure: Measure, maxWidth: int)
    requires i < |words|
    ensures Greedy(words[..i + 1], measure, maxWidth) == Step(Greedy(words[..i], measure, maxWidth), words[i], measure, maxWidth)
  {
    assert words[..i + 1][..i] == words[..i];
  }

  /** Drawing one more text after the lines of closed groups. */
  lemma {:induction false} DrawAfter(linesIn: seq<DrawnLine>, rowsIn: nat, ts: seq<string>, t: string)
    ensures linesIn + Number(ts, rowsIn) + [DrawnLine(t, rowsIn + |ts|)] == linesIn + Number(ts + [t], rowsIn)
  {
    NumberAppend(ts, t, rowsIn);
  }

  /** The loop variables of the wrap track the wrap state `st`: the
      accumulator string holds the words of `st.cur`, and one line has been
      drawn, in the next slot, for each closed group. */
  ghost predicate Tracks(st: Wrap, currentLine: string, lines: seq<DrawnLine>, rows: nat, linesIn: seq<DrawnLine>, rowsIn: nat) {
    && currentLine == Spaced(st.cur)
    && lines == linesIn + Number(Texts(st.done), rowsIn)
    && rows == rowsIn + |st.done|
  }

  /** A word that does not fit closes the accumulator, which is drawn in the
      next slot, and starts a new one. */
  lemma BreakStep(st: Wrap, word: string, measure: Measure, maxWidth: int, currentLine: string, lines: seq<DrawnLine>, rows: nat,
                  linesIn: seq<DrawnLine>, rowsIn: nat)
    requires Tracks(st, currentLine, lines, rows, linesIn, rowsIn)
    requires measure(currentLine + word + " ") > maxWidth as real && currentLine != ""
    ensures Tracks(Step(st, word, measure, maxWidth), word + " ", lines + [DrawnLine(Trim(currentLine), rows)], rows + 1, linesIn, rowsIn)
  {
    SpacedAppend(st.cur, word);
    SpacedAppend([], word);
    TextsAppend(st.done, st.cur);
    DrawAfter(linesIn, rowsIn, Texts(st.done), LineText(st.cur));
    assert Step(st, word, measure, maxWidth) == Wrap(st.done + [st.cur], [word]);
  }

  /** A word that fits, or lands in an empty accumulator, joins it. */
  lemma AppendStep(st: Wrap, word: string, measure: Measure, maxWidth: int, currentLine: string, lines: seq<DrawnLine>, rows: nat,
                   linesIn: seq<DrawnLine>, rowsIn: nat)
    requires Tracks(st, currentLine, lines, rows, linesIn, rowsIn)
    requires !(measure(currentLine + word + " ") > maxWidth as real && currentLine != "")
    ensures Tracks(Step(st, word, measure, maxWidth), currentLine + word + " ", lines, rows, linesIn, rowsIn)
  {
    SpacedAppend(st.cur, word);
    assert Step(st, word, measure, maxWidth) == Wrap(st.done, st.cur + [word]);
  }

  /** The inner forEach callback for one word. */
  method WrapWord(word: string, measure: Measure, maxWidth: int, currentLine: string, lines: seq<DrawnLine>, rows: nat,
                  ghost st: Wrap, ghost linesIn: seq<DrawnLine>, ghost rowsIn: nat)
    returns (currentLine': string, lines': seq<DrawnLine>, rows': nat)
    requires Tracks(st, currentLine, lines, rows, linesIn, rowsIn)
    ensures Tracks(Step(st, word, measure, maxWidth), currentLine', lines', rows', linesIn, rowsIn)
  {
    var testLine := currentLine + word + " ";
    if measure(testLine) > maxWidth as real && currentLine != "" {
      BreakStep(st, word, measure, maxWidth, currentLine, lines, rows, linesIn, rowsIn);
      lines' := lines + [DrawnLine(Trim(currentLine), rows)];
      rows' := rows + 1;
      currentLine' := word + " ";
    } else {
      AppendStep(st, word, measure, maxWidth, currentLine, lines, rows, linesIn, rowsIn);
      lines', rows' := lines, rows;
      currentLine' := testLine;
    }
  }

  /** The inner forEach over the words of a segment: the lines it draws for
      the groups it closes, and the accumulator it leaves. */
  method WrapWords(words: seq<string>, measure: Measure, maxWidth: int, linesIn: seq<DrawnLine>, rowsIn: nat)
    returns (lines: seq<DrawnLine>, rows: nat, currentLine: string)
    ensures Tracks(Greedy(words, measure, maxWidth), currentLine, lines, rows, linesIn, rowsIn)
  {
    lines, rows := linesIn, rowsIn;
    currentLine := "";
    ghost var st := Wrap([], []);
    for i := 0 to |words|
      invariant st == Greedy(words[..i], measure, maxWidth)
      invariant Tracks(st, currentLine, lines, rows, linesIn, rowsIn)
    {
      GreedyPrefix(words, i, measure, maxWidth);
      currentLine, lines, rows := WrapWord(words[i], measure, maxWidth, currentLine, lines, rows, st, linesIn, rowsIn);
      st := Step(st, words[i], measure, maxWidth);
    }
    assert words[..|words|] == words;
  }

  /** What the end of the forEach body does with the variables the inner
      loop leaves: the accumulator is drawn in the next slot when it is not
      whitespace-only, and that completes the segment's texts. */
  lemma FlushStep(words: seq<string>, measure: Measure, maxWidth: int, currentLine: string, lines: seq<DrawnLine>, rows: nat,
                  linesIn: seq<DrawnLine>, rowsIn: nat)
    requires Tracks(Greedy(words, measure, maxWidth), currentLine, lines, rows, linesIn, rowsIn)
    ensures var ts := WrapTexts(words, measure, maxWidth);
      var rest := Trim(currentLine);
      DrawTexts(Page(linesIn, rowsIn), ts)
        == if rest != "" then Page(lines + [DrawnLine(rest, rows)], rows + 1) else Page(lines, rows)
  {
    var st := Greedy(words, measure, maxWidth);
    var rest := Trim(Spaced(st.cur));
    var closed := Texts(st.done);
    if rest != "" {
      DrawAfter(linesIn, rowsIn, closed, rest);
    } else {
      assert WrapTexts(words, measure, maxWidth) == closed;
    }
  }

  /** The body of the outer forEach for one segment `line`, continuing from
      the lines drawn so far and the cursor slot `rowsIn`. */
  method WrapSegment(line: string, measure: Measure, maxWidth: int, linesIn: seq<DrawnLine>, rowsIn: nat)
    returns (lines: seq<DrawnLine>, rows: nat)
    ensures Page(lines, rows) == SegmentStep(Page(linesIn, rowsIn), line, measure, maxWidth)
  {
    if Trim(line) == "" {
      lines, rows := linesIn, rowsIn + 1;
      return;
    }
    var words := Split(line, ' ');
    var currentLine;
    lines, rows, currentLine := WrapWords(words, measure, maxWidth, linesIn, rowsIn);
    FlushStep(words, measure, maxWidth, currentLine, lines, rows, linesIn, rowsIn);
    var rest := Trim(currentLine);
    if rest != "" {
      lines := lines + [DrawnLine(rest, rows)];
      rows := rows + 1;
    }
  }

  // ---------------------------------------------------------------------
  // A worked scenario

  /** A lone word that is not whitespace-only is drawn as itself, trimmed. */
  lemma SingleWordTexts(w: string, measure: Measure, maxWidth: int)
    requires !AllWhitespace(w)
    ensures WrapTexts([w], measure, maxWidth) == [Trim(w)]
  {
    assert [w][..0] == [];
    var st := Greedy([w], measure, maxWidth);
    assert [w][0] == w;
    assert Greedy([w], measure, maxWidth) == Step(Greedy([], measure, maxWidth), w, measure, maxWidth);
    assert [] + [w] == [w];
    assert st == Wrap([], [w]);
    SpacedAppend([], w);
    assert Spaced([w]) == w + " ";
    TrimTrailingSpace(w);
    TrimSpec(w);
    assert Texts(st.done) == [];
  }

  lemma SingleWordSegment(w: string, measure: Measure, maxWidth: int)
    requires ' ' !in w && !AllWhitespace(w)
    ensures SegmentTexts(w, measure, maxWidth) == [Trim(w)]
  {
    SplitJoin([w], ' ');
    SingleWordTexts(w, measure, maxWidth);
  }

  /** Every prefix of the words, spaces included, fits. */
  predicate AllPrefixesFit(words: seq<string>, measure: Measure, maxWidth: int) {
    forall k :: 1 <= k <= |words| ==> measure(Spaced(words[..k])) <= maxWidth as real
  }

  /** While every candidate fits, the wrap never breaks: all the words so
      far sit in the accumulator. */
  lemma {:induction false} FittingPrefixNoBreak(words: seq<string>, i: nat, measure: Measure, maxWidth: int)
    requires i <= |words| && AllPrefixesFit(words, measure, maxWidth)
    ensures Greedy(words[..i], measure, maxWidth) == Wrap([], words[..i])
    decreases i
  {
    if i > 0 {
      FittingPrefixNoBreak(words, i - 1, measure, maxWidth);
      GreedyPrefix(words, i - 1, measure, maxWidth);
      assert words[..i - 1] + [words[i - 1]] == words[..i];
      assert measure(Spaced(words[..i])) <= maxWidth as real;
    }
  }

  /** Words whose every candidate fits are drawn as one line: the words
      joined by spaces and trimmed. */
  lemma FittingWordsOneLine(words: seq<string>, measure: Measure, maxWidth: int)
    requires |words| >= 1 && !AllWhitespace(Join(words, ' '))
    requires AllPrefixesFit(words, measure, maxWidth)
    ensures WrapTexts(words, measure, maxWidth) == [Trim(Join(words, ' '))]
  {
    FittingPrefixNoBreak(words, |words|, measure, maxWidth);
    assert words[..|words|] == words;
    SpacedIsJoin(words);
    TrimTrailingSpace(Join(words, ' '));
    TrimSpec(Join(words, ' '));
    assert Texts([]) == [];
  }

  /** A segment none of whose candidates is too wide, the trailing space
      included, is drawn as exactly one line: the segment trimmed. */
  lemma FittingSegmentOneLine(seg: string, measure: Measure, maxWidth: int)
    requires !AllWhitespace(seg)
    requires AllPrefixesFit(Split(seg, ' '), measure, maxWidth)
    ensures SegmentTexts(seg, measure, maxWidth) == [Trim(seg)]
  {
    JoinSplit(seg, ' ');
    FittingWordsOneLine(Split(seg, ' '), measure, maxWidth);
  }

  /** A newline-free text that fits is drawn as one line, the trimmed text,
      at y = 40, and the cursor ends one line height lower. */
  lemma FittingTextOneLine(text: string, measure: Measure, width: int)
    requires '\n' !in text && !AllWhitespace(text)
    requires AllPrefixesFit(Split(text, ' '), measure, width - 2 * Margin)
    ensures Layout(text, measure, width) == Page([DrawnLine(Trim(text), 0)], 1)
  {
    var maxWidth := width - 2 * Margin;
    SplitJoin([text], '\n');
    assert [text][..0] == [];
    FittingSegmentOneLine(text, measure, maxWidth);
    TrimSpec(text);
    var t := Trim(text);
    assert Number([t], 0) == [DrawnLine(t, 0)] by {
      NumberAppend([], t, 0);
      assert [] + [t] == [t];
    }
    assert LayoutSegments([text], measure, maxWidth) == DrawTexts(Page([], 0), [t]);
  }

  /** Two words where the second overflows the candidate: the first word is
      always taken, and the second starts a new group. */
  lemma TwoWordsGreedy(a: string, b: string, measure: Measure, maxWidth: int)
    requires measure(a + " " + b + " ") > maxWidth as real
    ensures Greedy([a, b], measure, maxWidth) == Wrap([[a]], [b])
  {
    assert [a, b][..1] == [a] && [a][..0] == [];
    assert Greedy([a], measure, maxWidth) == Step(Wrap([], []), a, measure, maxWidth);
    assert [] + [a] == [a];
    SpacedAppend([], a);
    SpacedAppend([a], b);
    assert Spaced([a] + [b]) == a + " " + b + " ";
    assert [a] + [b] == [a, b];
    assert [] + [[a]] == [[a]];
  }

  lemma TwoWordsGroups(a: string, b: string, measure: Measure, maxWidth: int)
    requires measure(a + " " + b + " ") > maxWidth as real
    ensures Groups([a, b], measure, maxWidth) == [[a], [b]]
  {
    TwoWordsGreedy(a, b, measure, maxWidth);
    GroupsOfState([a, b], [[a]], [b], measure, maxWidth);
    assert [[a]] + [[b]] == [[a], [b]];
  }

  /** The groups of words whose wrap ends in state `Wrap(done, cur)`. */
  lemma GroupsOfState(words: seq<string>, done: seq<seq<string>>, cur: seq<string>, measure: Measure, maxWidth: int)
    requires Greedy(words, measure, maxWidth) == Wrap(done, cur) && cur != []
    ensures Groups(words, measure, maxWidth) == done + [cur]
  {
  }

  /** The one-word group `[w]` is drawn as `w` trimmed. */
  lemma OneWordLineText(w: string)
    ensures LineText([w]) == Trim(w)
  {
    SpacedAppend([], w);
    assert [] + [w] == [w];
    assert Spaced([w]) == w + " ";
    TrimTrailingSpace(w);
  }

  /** The texts drawn for words whose wrap ends in state `Wrap(done, cur)`. */
  lemma WrapTextsOfState(words: seq<string>, done: seq<seq<string>>, cur: seq<string>, measure: Measure, maxWidth: int)
    requires Greedy(words, measure, maxWidth) == Wrap(done, cur)
    ensures WrapTexts(words, measure, maxWidth) == Texts(done) + (if Trim(Spaced(cur)) != "" then [Trim(Spaced(cur))] else [])
  {
  }

  lemma OneGroupTexts(g: seq<string>)
    ensures Texts([g]) == [LineText(g)]
  {
    TextsAppend([], g);
    assert [] + [g] == [g];
  }

  /** The texts of two such words: each trimmed, in order. */
  lemma TwoWordsTexts(a: string, b: string, measure: Measure, maxWidth: int)
    requires !AllWhitespace(b)
    requires measure(a + " " + b + " ") > maxWidth as real
    ensures WrapTexts([a, b], measure, maxWidth) == [Trim(a), Trim(b)]
  {
    TwoWordsGreedy(a, b, measure, maxWidth);
    WrapTextsOfState([a, b], [[a]], [b], measure, maxWidth);
    OneGroupTexts([a]);
    OneWordLineText(a);
    OneWordLineText(b);
    TrimSpec(b);
  }

  lemma TwoWordsSplit(a: string, b: string)
    requires ' ' !in a && ' ' !in b
    ensures Split(a + " " + b, ' ') == [a, b]
  {
    assert Join([a, b], ' ') == a + " " + b by {
      assert [a, b][1..] == [b];
    }
    SplitJoin([a, b], ' ');
  }

  /** A text that starts with a word that is not whitespace-only is not blank. */
  lemma NotBlankPrefix(a: string, b: string)
    requires !AllWhitespace(a)
    ensures Trim(a + " " + b) != ""
  {
    TrimSpec(a + " " + b);
    var i :| 0 <= i < |a| && !IsWhitespace(a[i]);
    assert (a + " " + b)[i] == a[i];
  }

  lemma TwoWordsSegmentTexts(a: string, b: string, measure: Measure, maxWidth: int)
    requires ' ' !in a && ' ' !in b && !AllWhitespace(b)
    requires measure(a + " " + b + " ") > maxWidth as real
    ensures SegmentTexts(a + " " + b, measure, maxWidth) == [Trim(a), Trim(b)]
  {
    TwoWordsSplit(a, b);
    TwoWordsTexts(a, b, measure, maxWidth);
  }

  /** A segment that is not blank draws its texts in the next slots. */
  lemma NonBlankStep(prev: Page, seg: string, ts: seq<string>, measure: Measure, maxWidth: int)
    requires Trim(seg) != "" && SegmentTexts(seg, measure, maxWidth) == ts
    ensures SegmentStep(prev, seg, measure, maxWidth) == DrawTexts(prev, ts)
  {
  }

  lemma TwoNumbered(t: string, u: string, row: nat)
    ensures Number([t, u], row) == [DrawnLine(t, row), DrawnLine(u, row + 1)]
  {
    NumberAppend([], t, row);
    NumberAppend([t], u, row);
    assert [] + [t] == [t] && [t] + [u] == [t, u];
  }

  /** "Hello world" where "world" does not fit after "Hello ": two lines in
      consecutive slots from the cursor on. */
  lemma TwoWordsSegment(prev: Page, a: string, b: string, measure: Measure, maxWidth: int)
    requires ' ' !in a && ' ' !in b && !AllWhitespace(a) && !AllWhitespace(b)
    requires measure(a + " " + b + " ") > maxWidth as real
    ensures SegmentStep(prev, a + " " + b, measure, maxWidth)
         == Page(prev.lines + [DrawnLine(Trim(a), prev.rows), DrawnLine(Trim(b), prev.rows + 1)], prev.rows + 2)
  {
    TwoWordsSegmentTexts(a, b, measure, maxWidth);
    NotBlankPrefix(a, b);
    NonBlankStep(prev, a + " " + b, [Trim(a), Trim(b)], measure, maxWidth);
    TwoNumbered(Trim(a), Trim(b), prev.rows);
  }

  lemma JoinThree(a: string, b: string)
    ensures Join([a, "", b], '\n') == a + "\n\n" + b
  {
    var segs := [a, "", b];
    assert segs[1..] == ["", b];
    assert ["", b][1..] == [b];
    calc {
      Join(segs, '\n');
      a + "\n" + Join(["", b], '\n');
      a + "\n" + ("" + "\n" + b);
      { assert "" + "\n" + b == "\n" + b; }
      a + "\n" + ("\n" + b);
      a + "\n\n" + b;
    }
  }

  lemma SplitThree(a: string, b: string)
    requires '\n' !in a && '\n' !in b
    ensures Split(a + "\n\n" + b, '\n') == [a, "", b]
  {
    SplitJoin([a, "", b], '\n');
    JoinThree(a, b);
  }

  /** A one-word segment draws one line in the next slot. */
  lemma WordStep(prev: Page, w: string, measure: Measure, maxWidth: int)
    requires ' ' !in w && !AllWhitespace(w)
    ensures SegmentStep(prev, w, measure, maxWidth) == Page(prev.lines + [DrawnLine(Trim(w), prev.rows)], prev.rows + 1)
  {
    SingleWordSegment(w, measure, maxWidth);
    TrimSpec(w);
    var t := Trim(w);
    assert Number([t], prev.rows) == [DrawnLine(t, prev.rows)] by {
      NumberAppend([], t, prev.rows);
      assert [] + [t] == [t];
    }
    assert SegmentStep(prev, w, measure, maxWidth) == DrawTexts(prev, [t]);
  }

  lemma BlankStep(prev: Page, measure: Measure, maxWidth: int)
    ensures SegmentStep(prev, "", measure, maxWidth) == Page(prev.lines, prev.rows + 1)
  {
    TrimSpec("");
  }

  lemma OneWordLayout(a: string, measure: Measure, maxWidth: int)
    requires ' ' !in a && !AllWhitespace(a)
    ensures LayoutSegments([a], measure, maxWidth) == Page([DrawnLine(Trim(a), 0)], 1)
  {
    assert [a][..0] == [];
    WordStep(Page([], 0), a, measure, maxWidth);
    assert [] + [DrawnLine(Trim(a), 0)] == [DrawnLine(Trim(a), 0)];
  }

  lemma WordThenBlankLayout(a: string, measure: Measure, maxWidth: int)
    requires ' ' !in a && !AllWhitespace(a)
    ensures LayoutSegments([a, ""], measure, maxWidth) == Page([DrawnLine(Trim(a), 0)], 2)
  {
    OneWordLayout(a, measure, maxWidth);
    assert [a, ""][..1] == [a];
    BlankStep(Page([DrawnLine(Trim(a), 0)], 1), measure, maxWidth);
  }

  /** Two words separated by a blank line: two drawn lines, the blank
      segment contributing exactly one extra line height between them and no
      line of its own, whatever the font metrics and surface width. */
  lemma SegmentsBlankBetween(a: string, b: string, measure: Measure, maxWidth: int)
    requires ' ' !in a && !AllWhitespace(a)
    requires ' ' !in b && !AllWhitespace(b)
    ensures LayoutSegments([a, "", b], measure, maxWidth) == Page([DrawnLine(Trim(a), 0), DrawnLine(Trim(b), 2)], 3)
  {
    var la, lb := DrawnLine(Trim(a), 0), DrawnLine(Trim(b), 2);
    WordThenBlankLayout(a, measure, maxWidth);
    assert [a, "", b][..2] == [a, ""];
    WordStep(Page([la], 2), b, measure, maxWidth);
    assert [la] + [lb] == [la, lb];
  }

  lemma BlankLineBetween(a: string, b: string, measure: Measure, width: int)
    requires ' ' !in a && '\n' !in a && !AllWhitespace(a)
    requires ' ' !in b && '\n' !in b && !AllWhitespace(b)
    ensures Layout(a + "\n\n" + b, measure, width) == Page([DrawnLine(Trim(a), 0), DrawnLine(Trim(b), 2)], 3)
  {
    SplitThree(a, b);
    SegmentsBlankBetween(a, b, measure, width - 2 * Margin);
  }

}
