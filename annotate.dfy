/**
 * The annotator (`draw_boxes`): copies the image, picks a stroke width and a
 * font size from the image width, and for each detection of the zipped
 * parallel arrays draws the box outline, a filled label background clamped
 * to row 0 and the label text inside it.  Pixels are not rendered: an image
 * records the drawing commands burned into it, in order.
 */
module Annotate {

  import opened Wrappers
  import opened Format

  datatype Rgb = Rgb(r: int, g: int, b: int)

  /** Outline and label background colour. */
  const Ink := Rgb(20, 20, 20)
  /** Label text colour. */
  const White := Rgb(255, 255, 255)

  /** The font the labels use: the scalable Arial face, or the built-in bitmap font. */
  datatype Font = TrueType(file: string, size: int) | DefaultFont

  /** Width and height of a label's text bounding box, as measured from (0, 0). */
  datatype Extent = Extent(width: nat, height: nat)

  datatype Rect = Rect(x1: int, y1: int, x2: int, y2: int)

  datatype DrawCommand =
    | Outline(rect: Rect, color: Rgb, width: int)
    | FilledRect(rect: Rect, color: Rgb)
    | Text(x: int, y: int, caption: string, font: Font, color: Rgb)

  /** A detector box in float pixel coordinates. */
  datatype Box = Box(x1: real, y1: real, x2: real, y2: real)

  datatype Detection = Detection(box: Box, cls: int, conf: real)

  /** Everything one call of the annotator draws with. */
  datatype Pen = Pen(names: map<int, string>, font: Font, lineWidth: int,
                     measure: (Font, string) -> Extent)

  function Max(a: int, b: int): int {
    if a < b then b else a
  }

  function Min(a: int, b: int): int {
    if a < b then a else b
  }

  /** Outline width: `max(2, img.width // 400)`. */
  function StrokeWidth(imageWidth: nat): int
  {
    Max(2, imageWidth / 400)
  }

  /** Label font size: `max(12, img.width // 100)`. */
  function FontSize(imageWidth: nat): int
  {
    Max(12, imageWidth / 100)
  }

  /**
   * The stroke is 2 pixels below an image width of 1200 and otherwise one
   * pixel per full 400 columns; the font is 12 points below a width of 1300
   * and otherwise one point per full 100 columns.
   */
  lemma ScalingFloors(imageWidth: nat)
    ensures StrokeWidth(imageWidth) >= 2 && FontSize(imageWidth) >= 12
    ensures StrokeWidth(imageWidth) == 2 <==> imageWidth < 1200
    ensures FontSize(imageWidth) == 12 <==> imageWidth < 1300
    ensures var w := StrokeWidth(imageWidth);
            w > 2 ==> 400 * w <= imageWidth < 400 * (w + 1)
    ensures var f := FontSize(imageWidth);
            f > 12 ==> 100 * f <= imageWidth < 100 * (f + 1)
  {
  }

  /** A wider image never gets a thinner stroke or a smaller font. */
  lemma ScalingMonotone(a: nat, b: nat)
    requires a <= b
    ensures StrokeWidth(a) <= StrokeWidth(b)
    ensures FontSize(a) <= FontSize(b)
  {
  }

  /**
   * The font of `draw_boxes`: "arial.ttf" at the scaled size, or the default
   * font when that load fails (whether it does is given, not modelled).
   */
  function SelectFont(truetypeLoads: bool, imageWidth: nat): Font
  {
    if truetypeLoads then TrueType("arial.ttf", FontSize(imageWidth)) else DefaultFont
  }

  /** Loading never fails the request: either Arial at a size of at least 12, or the default font. */
  lemma SelectFontFallback(truetypeLoads: bool, imageWidth: nat)
    ensures var f := SelectFont(truetypeLoads, imageWidth);
            (f.TrueType? <==> truetypeLoads)
            && (f.TrueType? ==> f.file == "arial.ttf" && f.size >= 12)
  {
  }

  /** The display name of a class: `names.get(int(cls), str(int(cls)))`. */
  function LabelName(cls: int, names: map<int, string>): string
  {
    if cls in names then names[cls] else IntToString(cls)
  }

  /**
   * A mapped class shows its name; an unmapped one shows its id in decimal,
   * from which the id can be read back.
   */
  lemma LabelNameFallback(cls: int, names: map<int, string>)
    ensures cls in names ==> LabelName(cls, names) == names[cls]
    ensures cls !in names ==> ParseInt(LabelName(cls, names)) == Some(cls)
  {
    IntToStringRoundTrip(cls);
  }

  /** The label: `f"{name} {conf:.2f}"`. */
  function Label(cls: int, conf: real, names: map<int, string>): string
  {
    LabelName(cls, names) + " " + Fmt2(conf)
  }

  /** The label is the display name, then exactly one space, then the formatted confidence. */
  lemma LabelParts(cls: int, conf: real, names: map<int, string>)
    ensures var name := LabelName(cls, names); var r := Label(cls, conf, names);
            |r| == |name| + 1 + |Fmt2(conf)| && r[..|name|] == name && r[|name|] == ' '
            && r[|name| + 1..] == Fmt2(conf)
  {
  }

  /** The box rounded to integer pixels with `int()`. */
  function TruncBox(b: Box): Rect
  {
    Rect(Trunc(b.x1), Trunc(b.y1), Trunc(b.x2), Trunc(b.y2))
  }

  /** Rounding keeps a well-ordered box well-ordered, so the outline is a proper rectangle. */
  lemma TruncBoxOrdered(b: Box)
    requires b.x1 <= b.x2 && b.y1 <= b.y2
    ensures var r := TruncBox(b); r.x1 <= r.x2 && r.y1 <= r.y2
  {
    TruncMonotone(b.x1, b.x2);
    TruncMonotone(b.y1, b.y2);
  }

  /** The top row of a label background: `max(0, y1 - th - 4)`. */
  function LabelTop(y1: int, th: nat): int
  {
    Max(0, y1 - th - 4)
  }

  /** The label top is never negative; it is th + 4 rows above y1 when there is room, else row 0. */
  lemma LabelTopClamped(y1: int, th: nat)
    ensures LabelTop(y1, th) >= 0
    ensures y1 - th - 4 >= 0 ==> LabelTop(y1, th) == y1 - th - 4
    ensures y1 - th - 4 < 0 ==> LabelTop(y1, th) == 0
  {
  }

  /** The label background for a text of extent e at the box corner (x1, y1). */
  function LabelBackground(x1: int, y1: int, e: Extent): Rect
  {
    var ty1 := LabelTop(y1, e.height);
    Rect(x1, ty1, x1 + e.width + 6, ty1 + e.height + 4)
  }

  predicate Inside(x: int, y: int, r: Rect) {
    r.x1 <= x <= r.x2 && r.y1 <= y <= r.y2
  }

  /**
   * The background starts at the box's left edge, is 6 wider and 4 taller
   * than the text, never reaches above row 0, and sits directly on the box's
   * top edge when there is room; the text anchor, 3 right of and 2 below the
   * background's corner, lies inside it.
   */
  lemma LabelPlacement(x1: int, y1: int, e: Extent)
    ensures var bg := LabelBackground(x1, y1, e);
            && bg.y1 >= 0 && bg.x1 == x1
            && bg.x2 - bg.x1 == e.width + 6 && bg.y2 - bg.y1 == e.height + 4
            && (y1 - e.height - 4 >= 0 ==> bg.y2 == y1)
            && (y1 - e.height - 4 < 0 ==> bg.y1 == 0)
            && Inside(bg.x1 + 3, bg.y1 + 2, bg)
  {
  }

  /** The three commands drawn for one detection. */
  function DetectionCommands(d: Detection, pen: Pen): (cs: seq<DrawCommand>)
    ensures |cs| == 3
  {
    var r := TruncBox(d.box);
    var caption := Label(d.cls, d.conf, pen.names);
    var bg := LabelBackground(r.x1, r.y1, pen.measure(pen.font, caption));
    [Outline(r, Ink, pen.lineWidth), FilledRect(bg, Ink), Text(bg.x1 + 3, bg.y1 + 2, caption, pen.font, White)]
  }

  /**
   * One detection draws its truncated box outline, then a label background
   * that starts at the box's left edge, never above row 0, then its label
   * text, anchored inside that background.
   */
  lemma DetectionCommandsShape(d: Detection, pen: Pen)
    ensures var cs := DetectionCommands(d, pen);
            && cs[0] == Outline(TruncBox(d.box), Ink, pen.lineWidth)
            && cs[1].FilledRect? && cs[1].color == Ink && cs[1].rect.y1 >= 0
            && cs[1].rect.x1 == cs[0].rect.x1
            && cs[2].Text? && cs[2].caption == Label(d.cls, d.conf, pen.names)
            && cs[2].font == pen.font && cs[2].color == White
            && Inside(cs[2].x, cs[2].y, cs[1].rect)
            && cs[2].x == cs[1].rect.x1 + 3 && cs[2].y == cs[1].rect.y1 + 2
            && cs[1].rect == LabelBackground(cs[0].rect.x1, cs[0].rect.y1, pen.measure(pen.font, cs[2].caption))
  {
    var r := TruncBox(d.box);
    LabelPlacement(r.x1, r.y1, pen.measure(pen.font, Label(d.cls, d.conf, pen.names)));
  }

  /** The concatenation of a sequence of command lists, in order. */
  function Concat(css: seq<seq<DrawCommand>>): seq<DrawCommand>
  {
    if css == [] then [] else Concat(css[..|css| - 1]) + css[|css| - 1]
  }

  /** When every list has three commands, list i occupies positions 3i to 3i+2. */
  lemma {:induction false} ConcatAt(css: seq<seq<DrawCommand>>, i: nat)
    requires forall j :: 0 <= j < |css| ==> |css[j]| == 3
    requires i <= |css|
    ensures |Concat(css)| == 3 * |css|
    ensures i < |css| ==> Concat(css)[3 * i..3 * i + 3] == css[i]
  {
    if css != [] {
      var init := css[..|css| - 1];
      ConcatAt(init, if i < |init| then i else 0);
      if i < |init| {
        assert Concat(css)[3 * i..3 * i + 3] == Concat(init)[3 * i..3 * i + 3];
      }
    }
  }

  /** The command lists of the detections, one per detection. */
  function Steps(ds: seq<Detection>, pen: Pen): (css: seq<seq<DrawCommand>>)
    ensures |css| == |ds|
    ensures forall i :: 0 <= i < |ds| ==> css[i] == DetectionCommands(ds[i], pen)
  {
    seq(|ds|, i requires 0 <= i < |ds| => DetectionCommands(ds[i], pen))
  }

  /** All commands for a sequence of detections, in order. */
  function Plan(ds: seq<Detection>, pen: Pen): seq<DrawCommand>
  {
    Concat(Steps(ds, pen))
  }

  /** Drawing one more detection appends exactly its three commands. */
  lemma PlanSnoc(ds: seq<Detection>, d: Detection, pen: Pen)
    ensures Plan(ds + [d], pen) == Plan(ds, pen) + DetectionCommands(d, pen)
  {
    var css := Steps(ds + [d], pen);
    assert css[..|ds|] == Steps(ds, pen);
  }

  /**
   * Detection i of the input contributes commands 3i, 3i+1 and 3i+2, so the
   * detections are drawn in input order, each as outline, background, text,
   * and nothing else is drawn.
   */
  lemma PlanAt(ds: seq<Detection>, pen: Pen, i: nat)
    requires i < |ds|
    ensures |Plan(ds, pen)| == 3 * |ds|
    ensures Plan(ds, pen)[3 * i..3 * i + 3] == DetectionCommands(ds[i], pen)
  {
    ConcatAt(Steps(ds, pen), i);
  }

  /** Python's `zip`: detection i pairs the i-th entries; the shortest array decides the count. */
  function Zip(boxes: seq<Box>, clsIds: seq<int>, confs: seq<real>): (z: seq<Detection>)
    ensures |z| == Min(|boxes|, Min(|clsIds|, |confs|))
    ensures forall i :: 0 <= i < |z| ==> z[i] == Detection(boxes[i], clsIds[i], confs[i])
  {
    var n := Min(|boxes|, Min(|clsIds|, |confs|));
    seq(n, i requires 0 <= i < n => Detection(boxes[i], clsIds[i], confs[i]))
  }

  /** A decoded raster: its size, its pixels, and the commands drawn onto it so far. */
  class Image {
    const width: nat
    const height: nat
    const pixels: seq<Rgb>
    var strokes: seq<DrawCommand>

    constructor (width: nat, height: nat, pixels: seq<Rgb>)
      ensures this.width == width && this.height == height && this.pixels == pixels
      ensures strokes == []
    {
      this.width, this.height, this.pixels := width, height, pixels;
      strokes := [];
    }

    /** `img.copy()`: a new image with the same contents. */
    method Copy() returns (c: Image)
      ensures fresh(c)
      ensures c.width == width && c.height == height && c.pixels == pixels && c.strokes == strokes
    {
      c := new Image(width, height, pixels);
      c.strokes := strokes;
    }

    /** `rectangle(..., outline=color, width=w)` */
    method DrawOutline(r: Rect, color: Rgb, w: int)
      modifies this
      ensures strokes == old(strokes) + [Outline(r, color, w)]
    {
      strokes := strokes + [Outline(r, color, w)];
    }

    /** `rectangle(..., fill=color)` */
    method DrawFilled(r: Rect, color: Rgb)
      modifies this
      ensures strokes == old(strokes) + [FilledRect(r, color)]
    {
      strokes := strokes + [FilledRect(r, color)];
    }

    /** `text((x, y), label, font=font, fill=color)` */
    method DrawText(x: int, y: int, caption: string, font: Font, color: Rgb)
      modifies this
      ensures strokes == old(strokes) + [Text(x, y, caption, font, color)]
    {
      strokes := strokes + [Text(x, y, caption, font, color)];
    }
  }

  /**
   * One iteration of the loop of `draw_boxes`: truncate the box, build the
   * label, draw the outline, measure the label, draw the clamped background,
   * then the text.
   */
  method DrawDetection(out: Image, box: Box, cls: int, conf: real, pen: Pen)
    modifies out
    ensures out.strokes == old(out.strokes) + DetectionCommands(Detection(box, cls, conf), pen)
  {
    var r := TruncBox(box);
    var caption := Label(cls, conf, pen.names);
    out.DrawOutline(r, Ink, pen.lineWidth);
    var e := pen.measure(pen.font, caption);
    var ty1 := LabelTop(r.y1, e.height);
    out.DrawFilled(Rect(r.x1, ty1, r.x1 + e.width + 6, ty1 + e.height + 4), Ink);
    out.DrawText(r.x1 + 3, ty1 + 2, caption, pen.font, White);
  }

  /**
   * `draw_boxes`: the input image is left as it was; the result is a new image
   * holding the input's contents followed by the plan for the zipped detections.
   * With no detections the result has exactly the input's contents.
   */
  method DrawBoxes(img: Image, boxes: seq<Box>, clsIds: seq<int>, confs: seq<real>,
                   names: map<int, string>, truetypeLoads: bool,
                   measure: (Font, string) -> Extent)
    returns (out: Image)
    ensures fresh(out) && unchanged(img)
    ensures out.width == img.width && out.height == img.height && out.pixels == img.pixels
    ensures out.strokes == img.strokes + Plan(Zip(boxes, clsIds, confs),
                              Pen(names, SelectFont(truetypeLoads, img.width), StrokeWidth(img.width), measure))
    ensures Min(|boxes|, Min(|clsIds|, |confs|)) == 0 ==> out.strokes == img.strokes
  {
    out := img.Copy();
    var pen := Pen(names, SelectFont(truetypeLoads, img.width), StrokeWidth(img.width), measure);
    ghost var ds := Zip(boxes, clsIds, confs);
    var n := Min(|boxes|, Min(|clsIds|, |confs|));
    var i := 0;
    while i < n
      invariant 0 <= i <= n
      invariant fresh(out) && out.width == img.width && out.height == img.height && out.pixels == img.pixels
      invariant out.strokes == img.strokes + Plan(ds[..i], pen)
    {
      DrawDetection(out, boxes[i], clsIds[i], confs[i], pen);
      PlanStep(ds, i, pen);
      i := i + 1;
    }
    assert ds[..n] == ds;
  }

  /** Drawing detection i after the first i extends the plan by its commands. */
  lemma PlanStep(ds: seq<Detection>, i: nat, pen: Pen)
    requires i < |ds|
    ensures Plan(ds[..i + 1], pen) == Plan(ds[..i], pen) + DetectionCommands(ds[i], pen)
  {
    assert ds[..i + 1] == ds[..i] + [ds[i]];
    PlanSnoc(ds[..i], ds[i], pen);
  }
}
