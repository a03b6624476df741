/** drawPaperStyle (script.js): the ruling stroked under the text.

    Lined paper has horizontal rules at y = 40, 72, 104, ... for as long as
    y is less than the surface height, each from x = 40 to width - 40. Grid
    paper has the same horizontal rules and then vertical rules at
    x = 40, 72, ... for as long as x is less than the width, each from
    y = 40 to height - 40. Any other style has no rules. */
module Paper {
  import opened Canvas

  /** The distance between consecutive rules. */
  const Pitch: int := 32

  /** One stroked segment, from (x1, y1) to (x2, y2). */
  datatype Rule = Rule(x1: int, y1: int, x2: int, y2: int)

  /** The coordinate of the k-th rule along its axis. */
  function RulePos(k: nat): int {
    Margin + Pitch * k
  }

  /** How many rules a loop starting at 40 and stepping by 32 strokes while
      its coordinate is below `limit`. */
  function RuleCount(limit: int): nat {
    if limit <= Margin then 0 else (limit - Margin - 1) / Pitch + 1
  }

  /** The k-th rule is stroked exactly when its position is below the limit. */
  lemma RuleCountSpec(limit: int, k: nat)
    ensures k < RuleCount(limit) <==> RulePos(k) < limit
  {
    if limit > Margin {
      var q := (limit - Margin - 1) / Pitch;
      assert Pitch * q <= limit - Margin - 1 < Pitch * q + Pitch;
      if k <= q {
        assert Pitch * k <= Pitch * q;
      } else {
        assert Pitch * k >= Pitch * (q + 1);
      }
    }
  }

  /** The count is the first k whose position reaches the limit. */
  lemma RuleCountExact(limit: int, n: nat)
    requires forall j: nat :: j < n ==> RulePos(j) < limit
    requires RulePos(n) >= limit
    ensures RuleCount(limit) == n
  {
    RuleCountSpec(limit, n);
    if RuleCount(limit) < n {
      RuleCountSpec(limit, RuleCount(limit));
    }
  }

  function HorizontalRule(width: int, k: nat): Rule {
    Rule(Margin, RulePos(k), width - Margin, RulePos(k))
  }

  function VerticalRule(height: int, k: nat): Rule {
    Rule(RulePos(k), Margin, RulePos(k), height - Margin)
  }

  /** The horizontal rules of a `width` by `height` surface, top to bottom. */
  function HorizontalRules(width: int, height: int): (r: seq<Rule>)
    ensures |r| == RuleCount(height)
  {
    seq(RuleCount(height), k requires 0 <= k < RuleCount(height) => HorizontalRule(width, k))
  }

  /** The vertical rules of a `width` by `height` surface, left to right. */
  function VerticalRules(width: int, height: int): (r: seq<Rule>)
    ensures |r| == RuleCount(width)
  {
    seq(RuleCount(width), k requires 0 <= k < RuleCount(width) => VerticalRule(height, k))
  }

  /** The rules stroked for a paper style, in stroke order. */
  function PaperRules(style: string, width: int, height: int): seq<Rule> {
    if style == "lined" then HorizontalRules(width, height)
    else if style == "grid" then HorizontalRules(width, height) + VerticalRules(width, height)
    else []
  }

  /** The horizontal loop: while y is below the height, stroke and step. */
  method StrokeHorizontal(width: int, height: int) returns (rules: seq<Rule>)
    ensures rules == HorizontalRules(width, height)
  {
    rules := [];
    var y := Margin;
    while y < height
      invariant y == RulePos(|rules|)
      invariant forall j: nat :: j < |rules| ==> RulePos(j) < height
      invariant forall j :: 0 <= j < |rules| ==> rules[j] == HorizontalRule(width, j)
      decreases height - y
    {
      rules := rules + [Rule(Margin, y, width - Margin, y)];
      y := y + Pitch;
    }
    RuleCountExact(height, |rules|);
  }

  /** The vertical loop: while x is below the width, stroke and step. */
  method StrokeVertical(width: int, height: int) returns (rules: seq<Rule>)
    ensures rules == VerticalRules(width, height)
  {
    rules := [];
    var x := Margin;
    while x < width
      invariant x == RulePos(|rules|)
      invariant forall j: nat :: j < |rules| ==> RulePos(j) < width
      invariant forall j :: 0 <= j < |rules| ==> rules[j] == VerticalRule(height, j)
      decreases width - x
    {
      rules := rules + [Rule(x, Margin, x, height - Margin)];
      x := x + Pitch;
    }
    RuleCountExact(width, |rules|);
  }

  /** drawPaperStyle for the selected style. */
  method DrawPaperStyle(style: string, width: int, height: int) returns (rules: seq<Rule>)
    ensures rules == PaperRules(style, width, height)
  {
    if style == "lined" {
      rules := StrokeHorizontal(width, height);
    } else if style == "grid" {
      var horizontal := StrokeHorizontal(width, height);
      var vertical := StrokeVertical(width, height);
      rules := horizontal + vertical;
    } else {
      rules := [];
    }
  }

  /** Lined paper: rule k is horizontal at y = 40 + 32k, spans 40 to
      width - 40, and every y below the height on that progression gets one. */
  lemma LinedRules(width: int, height: int)
    ensures var r := PaperRules("lined", width, height);
      && (forall k :: 0 <= k < |r| ==> r[k] == Rule(Margin, Margin + Pitch * k, width - Margin, Margin + Pitch * k))
      && (forall k :: 0 <= k < |r| ==> Margin + Pitch * k < height)
      && (forall k: nat :: Margin + Pitch * k < height ==> k < |r|)
  {
    forall k: nat ensures k < RuleCount(height) <==> RulePos(k) < height {
      RuleCountSpec(height, k);
    }
  }

  /** Grid paper: the lined rules, then a vertical rule at x = 40 + 32k,
      spanning 40 to height - 40, for every such x below the width. */
  lemma GridRules(width: int, height: int)
    ensures var r := PaperRules("grid", width, height);
      var h := RuleCount(height);
      && r[..h] == PaperRules("lined", width, height)
      && |r| == h + RuleCount(width)
      && (forall k :: 0 <= k < |r| - h ==> r[h + k] == Rule(Margin + Pitch * k, Margin, Margin + Pitch * k, height - Margin))
      && (forall k :: 0 <= k < |r| - h ==> Margin + Pitch * k < width)
      && (forall k: nat :: Margin + Pitch * k < width ==> k < |r| - h)
  {
    forall k: nat ensures k < RuleCount(width) <==> RulePos(k) < width {
      RuleCountSpec(width, k);
    }
    var h := HorizontalRules(width, height);
    assert (h + VerticalRules(width, height))[..|h|] == h;
  }

  /** Only "lined" and "grid" draw anything. */
  lemma OtherStylesBlank(style: string, width: int, height: int)
    requires style != "lined" && style != "grid"
    ensures PaperRules(style, width, height) == []
  {
  }

  /** A 400 by 400 grid has 12 rules each way, at 40, 72, ..., 392. */
  lemma Grid400()
    ensures |PaperRules("lined", 400, 400)| == 12
    ensures |PaperRules("grid", 400, 400)| == 24
    ensures PaperRules("grid", 400, 400)[11] == Rule(40, 392, 360, 392)
    ensures PaperRules("grid", 400, 400)[23] == Rule(392, 40, 392, 360)
  {
    var h := HorizontalRules(400, 400);
    var v := VerticalRules(400, 400);
    assert (h + v)[23] == v[11];
  }
}
