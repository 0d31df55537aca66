/**
  The text configuration of the editor (`formState`) and the placement
  arithmetic of `drawTextWithEffects`: the text is split on hard line
  breaks only, every piece is drawn at its own baseline, and one vertical
  gradient spans the whole block.  Everything is in physical pixels, i.e.
  logical units times the device pixel ratio `scale`.
 */
module TextLayout {
  import Lines
  import Arith

  /** `textAlign`; `Left` stands for every value other than 'center' and 'right'. */
  datatype Align = Left | Center | Right

  /** The geometric fields of `formState`; colours and the font family are left out. */
  datatype TextConfig = TextConfig(
    text: string,
    fontSize: real,
    textX: real,
    textY: real,
    lineHeight: real,
    align: Align,
    outlineWidth: real)

  /** The form as the page starts. */
  const Initial: TextConfig := TextConfig("Enter your text here", 24.0, 50.0, 50.0, 1.2, Center, 0.0)

  /** One `fillText` call: the piece, its anchor and whether it is stroked first. */
  datatype DrawnLine = DrawnLine(text: string, x: real, y: real, stroked: bool)

  /** The drawn lines and the vertical extent of the shared gradient. */
  datatype Drawing = Drawing(lines: seq<DrawnLine>, gradientTop: real, gradientBottom: real)

  /** Physical distance between consecutive baselines. */
  function LineStep(cfg: TextConfig, scale: real): real {
    cfg.fontSize * cfg.lineHeight * scale
  }

  /**
    The x anchor for the alignment: a centred text sits on the canvas's
    middle whatever `textX` says, a right-aligned one `textX` from the right
    edge, any other `textX` from the left edge.
   */
  function AnchorX(cfg: TextConfig, canvasWidth: nat, scale: real): (x: real)
    ensures cfg.align == Center ==> x + x == canvasWidth as real
    ensures cfg.align == Right ==> x + cfg.textX * scale == canvasWidth as real
    ensures cfg.align == Left ==> x == cfg.textX * scale
  {
    match cfg.align
    case Center => canvasWidth as real / 2.0
    case Right => canvasWidth as real - cfg.textX * scale
    case Left => cfg.textX * scale
  }

  /**
    Right alignment is left alignment mirrored about the canvas's middle, and
    moving the text origin sideways does not move a centred text.
   */
  lemma AnchorMirror(cfg: TextConfig, canvasWidth: nat, scale: real, dx: real)
    ensures AnchorX(cfg.(align := Right), canvasWidth, scale) ==
            canvasWidth as real - AnchorX(cfg.(align := Left), canvasWidth, scale)
    ensures AnchorX(cfg.(align := Center, textX := cfg.textX + dx), canvasWidth, scale) ==
            AnchorX(cfg.(align := Center), canvasWidth, scale)
  {
  }

  /** The baseline of line `i`: `textY * scale + index * lineHeight`. */
  function Baseline(top: real, step: real, i: nat): real {
    top + i as real * step
  }

  /** Consecutive baselines are one step apart. */
  lemma NextBaseline(top: real, step: real, i: nat)
    ensures Baseline(top, step, i + 1) == Baseline(top, step, i) + step
  {
    assert (i + 1) as real * step == i as real * step + step;
  }

  /** One drawn line per piece, all at the anchor `x`, on baselines `step` apart from `top`. */
  function PlaceLines(pieces: seq<string>, x: real, top: real, step: real, stroked: bool): (r: seq<DrawnLine>)
    ensures |r| == |pieces|
    ensures |r| > 0 ==> r[0].y == top
    ensures forall i :: 0 <= i < |r| ==> r[i].y == Baseline(top, step, i)
    ensures forall i :: 0 <= i < |r| - 1 ==> r[i + 1].y == r[i].y + step
    ensures forall i :: 0 <= i < |r| ==> r[i].text == pieces[i] && r[i].x == x && r[i].stroked == stroked
  {
    var lines := seq(|pieces|, i requires 0 <= i < |pieces| => DrawnLine(pieces[i], x, Baseline(top, step, i), stroked));
    assert forall i :: 0 <= i < |lines| - 1 ==> lines[i + 1].y == lines[i].y + step by {
      forall i | 0 <= i < |lines| - 1 {
        NextBaseline(top, step, i);
      }
    }
    lines
  }

  /** The placement `drawTextWithEffects` computes before painting. */
  function Layout(cfg: TextConfig, canvasWidth: nat, scale: real): (d: Drawing)
    ensures |d.lines| == Lines.CountNewlines(cfg.text) + 1
    ensures d.lines[0].y == cfg.textY * scale == d.gradientTop
    ensures forall i :: 0 <= i < |d.lines| ==> d.lines[i].y == Baseline(d.gradientTop, LineStep(cfg, scale), i)
    ensures forall i :: 0 <= i < |d.lines| - 1 ==> d.lines[i + 1].y == d.lines[i].y + LineStep(cfg, scale)
    ensures d.gradientBottom == d.gradientTop + LineStep(cfg, scale) * |d.lines| as real
    ensures forall i :: 0 <= i < |d.lines| ==> d.lines[i].x == AnchorX(cfg, canvasWidth, scale)
    ensures forall i :: 0 <= i < |d.lines| ==> d.lines[i].stroked == (cfg.outlineWidth > 0.0)
    ensures forall i :: 0 <= i < |d.lines| ==> Lines.NoNewline(d.lines[i].text)
  {
    var pieces := Lines.Split(cfg.text);
    var top := cfg.textY * scale;
    var step := LineStep(cfg, scale);
    var lines := PlaceLines(pieces, AnchorX(cfg, canvasWidth, scale), top, step, cfg.outlineWidth > 0.0);
    Drawing(lines, top, top + step * |pieces| as real)
  }

  /** The texts of the drawn lines, in drawing order. */
  function Texts(lines: seq<DrawnLine>): (r: seq<string>)
    ensures |r| == |lines|
    ensures forall i :: 0 <= i < |lines| ==> r[i] == lines[i].text
  {
    seq(|lines|, i requires 0 <= i < |lines| => lines[i].text)
  }

  /** The drawn pieces are exactly the pieces of the text, and rejoin to it. */
  lemma LayoutKeepsText(cfg: TextConfig, canvasWidth: nat, scale: real)
    ensures var d := Layout(cfg, canvasWidth, scale);
      Texts(d.lines) == Lines.Split(cfg.text) && Lines.Join(Texts(d.lines)) == cfg.text
  {
    var d := Layout(cfg, canvasWidth, scale);
    assert Texts(d.lines) == Lines.Split(cfg.text);
    Lines.JoinSplit(cfg.text);
  }

  /** A positive font size, line height and pixel ratio give a positive step. */
  lemma StepPositive(cfg: TextConfig, scale: real)
    requires cfg.fontSize > 0.0 && cfg.lineHeight > 0.0 && scale > 0.0
    ensures LineStep(cfg, scale) > 0.0
  {
    var fl := cfg.fontSize * cfg.lineHeight;
    assert fl > 0.0;
    assert LineStep(cfg, scale) == fl * scale;
  }

  /** The terms of an increasing arithmetic progression stay between its ends. */
  lemma Progression(top: real, step: real, i: nat, j: nat, n: nat, yi: real, yj: real, bottom: real)
    requires step > 0.0 && i < j < n
    requires yi == top + i as real * step && yj == top + j as real * step
    requires bottom == top + step * n as real
    ensures top <= yi < yj <= bottom - step
  {
    var m := (n - 1) as real;
    Arith.ScaleOrder(0.0, i as real, step);
    Arith.ScaleOrder(i as real, j as real, step);
    Arith.ScaleOrder(j as real, m, step);
    assert step * n as real == m * step + step by {
      assert n as real == m + 1.0;
      assert step * (m + 1.0) == step * m + step;
    }
  }

  /**
    With a positive step the baselines strictly increase, and every baseline
    lies inside the gradient, at least one step above its lower end.
   */
  lemma BaselinesIncrease(cfg: TextConfig, canvasWidth: nat, scale: real, i: nat, j: nat)
    requires LineStep(cfg, scale) > 0.0
    requires i < j < |Layout(cfg, canvasWidth, scale).lines|
    ensures var d := Layout(cfg, canvasWidth, scale);
      d.gradientTop <= d.lines[i].y < d.lines[j].y <= d.gradientBottom - LineStep(cfg, scale)
  {
    var d := Layout(cfg, canvasWidth, scale);
    var step := LineStep(cfg, scale);
    var top := cfg.textY * scale;
    assert d.lines[i].y == Baseline(top, step, i);
    assert d.lines[j].y == Baseline(top, step, j);
    Progression(top, step, i, j, |d.lines|, d.lines[i].y, d.lines[j].y, d.gradientBottom);
  }
}
