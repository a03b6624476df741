/** generateHandwrittenNotes (script.js) as the list of drawing commands it
    issues: the background fill, the paper rules, then the words of every
    wrapped line, each line drawn by drawTextWithVariation at x = 40 and at
    the y of its line slot.

    In the source each line is drawn as soon as the wrap produces it. The
    drawing changes nothing the wrap reads (each word is drawn between
    save and restore, so measureText keeps the unjittered font), so here the
    wrap runs first and the lines are drawn afterwards, in the same order. */
module Render {
  import opened JsString
  import opened Canvas
  import opened WordWrap
  import opened Variation
  import opened Paper

  /** The form values the renderer reads. */
  datatype Config = Config(
    text: string,
    fontSize: int,
    lineHeight: real,
    penColor: string,
    bgColor: string,
    style: string,
    width: int,
    height: int)

  /** A drawing command: fillRect over the whole surface, one stroked rule,
      or one fillText of a word in the pen colour. */
  datatype Command =
    | Background(color: string, width: int, height: int)
    | Stroke(rule: Rule)
    | Word(color: string, draw: WordDraw)

  function Strokes(rules: seq<Rule>): (r: seq<Command>)
    ensures |r| == |rules|
  {
    seq(|rules|, i requires 0 <= i < |rules| => Stroke(rules[i]))
  }

  function Words(color: string, draws: seq<WordDraw>): (r: seq<Command>)
    ensures |r| == |draws|
  {
    seq(|draws|, i requires 0 <= i < |draws| => Word(color, draws[i]))
  }

  /** The distance between line slots: fontSize times the line-height factor. */
  function LineHeightPx(cfg: Config): real {
    cfg.fontSize as real * cfg.lineHeight
  }

  /** The words of the drawn lines, line n using the random values rnd(n). */
  function LineCommands(lines: seq<DrawnLine>, color: string, lineHeightPx: real, fontSize: int, measure: Measure, rnd: nat -> nat -> Randoms): seq<Command> {
    if |lines| == 0 then []
    else
      var n := |lines| - 1;
      LineCommands(lines[..n], color, lineHeightPx, fontSize, measure, rnd)
        + Words(color, Placements(LineWords(lines[n].text), Margin as real, Y(lines[n].row, lineHeightPx), fontSize, measure, rnd(n)))
  }

  /** The background and the rules: everything drawn before the text. */
  function Underlay(cfg: Config): seq<Command> {
    [Background(cfg.bgColor, cfg.width, cfg.height)] + Strokes(PaperRules(cfg.style, cfg.width, cfg.height))
  }

  /** Everything one call draws, in order. */
  function RenderCommands(cfg: Config, measure: Measure, rnd: nat -> nat -> Randoms): seq<Command> {
    Underlay(cfg)
      + LineCommands(Layout(cfg.text, measure, cfg.width).lines, cfg.penColor, LineHeightPx(cfg), cfg.fontSize, measure, rnd)
  }

  lemma {:induction false} LineCommandsPrefix(lines: seq<DrawnLine>, n: nat, color: string, lineHeightPx: real, fontSize: int, measure: Measure, rnd: nat -> nat -> Randoms)
    requires n < |lines|
    ensures LineCommands(lines[..n + 1], color, lineHeightPx, fontSize, measure, rnd)
         == LineCommands(lines[..n], color, lineHeightPx, fontSize, measure, rnd)
          + Words(color, Placements(LineWords(lines[n].text), Margin as real, Y(lines[n].row, lineHeightPx), fontSize, measure, rnd(n)))
  {
    assert lines[..n + 1][..n] == lines[..n];
  }

  /** The drawing part of the line loop: line n through drawTextWithVariation
      at x = 40 and the y of its slot, with the random values rnd(n). */
  method DrawLines(lines: seq<DrawnLine>, color: string, lineHeightPx: real, fontSize: int, measure: Measure, rnd: nat -> nat -> Randoms)
    returns (cmds: seq<Command>)
    ensures cmds == LineCommands(lines, color, lineHeightPx, fontSize, measure, rnd)
  {
    cmds := [];
    for n := 0 to |lines|
      invariant cmds == LineCommands(lines[..n], color, lineHeightPx, fontSize, measure, rnd)
    {
      var draws := DrawTextWithVariation(lines[n].text, Margin as real, Y(lines[n].row, lineHeightPx), fontSize, measure, rnd(n));
      LineCommandsPrefix(lines, n, color, lineHeightPx, fontSize, measure, rnd);
      cmds := cmds + Words(color, draws);
    }
    assert lines[..|lines|] == lines;
  }

  /** generateHandwrittenNotes with a working 2D context. */
  method GenerateHandwrittenNotes(cfg: Config, measure: Measure, rnd: nat -> nat -> Randoms) returns (cmds: seq<Command>)
    ensures cmds == RenderCommands(cfg, measure, rnd)
  {
    cmds := [Background(cfg.bgColor, cfg.width, cfg.height)];
    var rules := DrawPaperStyle(cfg.style, cfg.width, cfg.height);
    cmds := cmds + Strokes(rules);
    assert cmds == Underlay(cfg);
    var lineHeightPx := cfg.fontSize as real * cfg.lineHeight;
    assert lineHeightPx == LineHeightPx(cfg);
    var lines, rows := WrapText(cfg.text, measure, cfg.width);
    assert lines == Layout(cfg.text, measure, cfg.width).lines;
    var words := DrawLines(lines, cfg.penColor, lineHeightPx, cfg.fontSize, measure, rnd);
    cmds := cmds + words;
  }

  /** The background comes first and the rules follow it, whatever the
      text: the text never moves or changes a rule. */
  lemma UnderlayFirst(cfg: Config, measure: Measure, rnd: nat -> nat -> Randoms)
    ensures var cmds := RenderCommands(cfg, measure, rnd);
      var rules := PaperRules(cfg.style, cfg.width, cfg.height);
      && |cmds| >= 1 + |rules|
      && cmds[0] == Background(cfg.bgColor, cfg.width, cfg.height)
      && forall i :: 0 <= i < |rules| ==> cmds[1 + i] == Stroke(rules[i])
  {
    var u := Underlay(cfg);
    var cmds := RenderCommands(cfg, measure, rnd);
    assert cmds[..|u|] == u;
    assert forall i :: 0 <= i < |u| ==> cmds[i] == u[i];
  }

  /** Two texts on the same settings share everything drawn before the
      text. */
  lemma TextDoesNotMoveRules(cfg: Config, other: string, measure: Measure, rnd: nat -> nat -> Randoms)
    ensures var u := Underlay(cfg);
      RenderCommands(cfg, measure, rnd)[..|u|] == RenderCommands(cfg.(text := other), measure, rnd)[..|u|]
  {
    var u := Underlay(cfg);
    assert Underlay(cfg.(text := other)) == u;
  }

  /** An empty text draws only the background and the rules. */
  lemma EmptyTextDrawsNoWords(cfg: Config, measure: Measure, rnd: nat -> nat -> Randoms)
    requires cfg.text == ""
    ensures RenderCommands(cfg, measure, rnd) == Underlay(cfg)
  {
    var mw := cfg.width - 2 * Margin;
    assert Split("", '\n') == [""];
    assert Trim("") == "";
    assert [""][..0] == [];
    assert LayoutSegments([], measure, mw) == Page([], 0);
    assert LayoutSegments([""], measure, mw) == SegmentStep(Page([], 0), "", measure, mw);
    assert Layout("", measure, cfg.width).lines == [];
  }
}
