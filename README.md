# Object detection web app: annotator, summary and request gate

A Dafny model of the core of `app.py`, a Flask service that runs a YOLO
detector on an uploaded photo, draws the detections onto a copy of the
photo and lists how many objects of each class it found.

- `Annotate` models `draw_boxes`. The image is a class whose pixels are left
  as they are and whose `strokes` field records each drawing command burned
  into it, in order. `DrawBoxes` copies the input image and picks the stroke
  width `max(2, width // 400)` and the font (Arial at `max(12, width // 100)`,
  or the default font when loading fails). It then walks the zip of the three
  parallel arrays, so the shortest array decides how many detections are
  drawn. For each detection it truncates the box with `int()` and builds the
  label `"<name or id> <conf:.2f>"`. It draws the outline, then a filled
  label background whose top is clamped to row 0, then the white text inset
  by (3, 2). The method is proved against the specification function `Plan`.
  Lemmas place detection i at commands 3i to 3i+2 and give each command's
  geometry.
- `Format` models the three number/text conversions the label uses:
  `str(int)` (invertible, `IntToStringRoundTrip`), `int(float)` (truncation
  toward zero, monotone), and `f"{x:.2f}"`. The two-decimal format rounds
  half to even on the exact value and keeps the sign, so a small negative
  number prints as "-0.00". It reads back within 0.005 of its input.
- `Summary` models the summary lines: `names[int(c)]` for each class id,
  `Counter` as an insertion-ordered sequence of `(name, count)` items, and one
  `"name: count"` line per item. It proves that the counter lists each
  occurring name once, in first-seen order, with its number of occurrences,
  and that the counts add up to the number of detections.
- `Gate` models the checks at the start of `/detect`, in source order: no
  `image` field, then an empty filename, then undecodable bytes. Each gives
  HTTP 400 with its own message. It also models the confidence threshold
  `conf or 0.25`.

## Model

| member | source | states |
|---|---|---|
| Annotate.DrawBoxes | app.py:16-37 | the input image is unchanged; the result is a fresh image of the same size and pixels whose commands are the input's followed by `Plan` of the zipped detections, drawn with the selected font and stroke width; with an empty array nothing is drawn |
| Annotate.DrawDetection | app.py:30-36 | one loop iteration appends exactly the three commands `DetectionCommands` gives for that detection |
| Annotate.Image.Copy | app.py:21 | `img.copy()` is a new image with the same size, pixels and drawn contents |
| Annotate.Image.DrawOutline | app.py:32 | an outline rectangle appends one outline command with its colour and width |
| Annotate.Image.DrawFilled | app.py:35 | a filled rectangle appends one filled command |
| Annotate.Image.DrawText | app.py:36 | a text call appends one text command at its anchor with its font and colour |
| Annotate.PlanAt | app.py:29-36 | the plan has three commands per detection; detection i contributes commands 3i..3i+2, so detections are drawn in input order |
| Annotate.DetectionCommands | app.py:32-36 | each detection draws exactly three commands |
| Annotate.DetectionCommandsShape | app.py:30-36 | outline of the truncated box in (20,20,20) and the line width; then a (20,20,20) background starting at the box's left edge and never above row 0; then the white label text in the chosen font, anchored 3 right of and 2 below the background's corner, inside it |
| Annotate.Zip | app.py:29 | detection i pairs the i-th box, class id and confidence; the count is the shortest array's length |
| Annotate.ScalingFloors | app.py:24-28 | stroke >= 2 and font >= 12; stroke is 2 exactly below width 1200 and font 12 exactly below 1300; above the floor, stroke w means 400w <= width < 400(w+1) and font f means 100f <= width < 100(f+1) |
| Annotate.ScalingMonotone | app.py:24-28 | a wider image never gets a thinner stroke or a smaller font |
| Annotate.SelectFontFallback | app.py:23-26 | the font is Arial exactly when loading succeeds, at a size of at least 12; otherwise it is the default font |
| Annotate.LabelNameFallback | app.py:31 | a mapped class shows its name; an unmapped class shows its id in decimal, which reads back as the id |
| Annotate.LabelParts | app.py:31 | the label is the display name, one space, then the two-decimal confidence |
| Annotate.TruncBoxOrdered | app.py:30 | truncating a box with x1 <= x2 and y1 <= y2 keeps both orders |
| Annotate.LabelTopClamped | app.py:34 | the background top is never negative; it is th + 4 rows above the box top when there is room, else row 0 |
| Annotate.LabelPlacement | app.py:33-36 | the background starts at the box's left edge and is 6 wider and 4 taller than the text; it sits on the box's top edge when there is room, never above row 0; the text anchor lies inside it |
| Annotate.StrokeWidth | app.py:28 | no contract of its own; its behaviour is stated by `Annotate.ScalingFloors` and `Annotate.ScalingMonotone` |
| Annotate.FontSize | app.py:24 | no contract of its own; its behaviour is stated by `Annotate.ScalingFloors` and `Annotate.ScalingMonotone` |
| Annotate.SelectFont | app.py:23-26 | no contract of its own; its behaviour is stated by `Annotate.SelectFontFallback` |
| Annotate.LabelName | app.py:31 | no contract of its own; its behaviour is stated by `Annotate.LabelNameFallback` |
| Annotate.Label | app.py:31 | no contract of its own; its behaviour is stated by `Annotate.LabelParts` |
| Annotate.TruncBox | app.py:30 | no contract of its own; its behaviour is stated by `Annotate.TruncBoxOrdered` and `Format.TruncTowardZero` |
| Annotate.LabelTop | app.py:34 | no contract of its own; its behaviour is stated by `Annotate.LabelTopClamped` |
| Annotate.LabelBackground | app.py:35 | no contract of its own; its behaviour is stated by `Annotate.LabelPlacement` |
| Annotate.Plan | app.py:29-36 | no contract of its own; its behaviour is stated by `Annotate.PlanAt` |
| Format.NatToString | app.py:31 | `str` of a non-negative int is a non-empty digit string without a leading zero |
| Format.NatToStringRoundTrip | app.py:31 | reading back the digits of `str(n)` gives n |
| Format.IntToStringRoundTrip | app.py:31 | `str(i)` for any int, sign included, reads back as i |
| Format.TruncTowardZero | app.py:30 | `int(x)` lies within one unit of x, on the zero side |
| Format.TruncMonotone | app.py:30 | `int()` on floats is monotone |
| Format.RoundHalfEvenNearest | app.py:31 | rounding gives an integer at most 1/2 away, and an even one on a tie |
| Format.IntToString | app.py:31 | no contract of its own; its behaviour is stated by `Format.IntToStringRoundTrip` |
| Format.Trunc | app.py:30 | no contract of its own; its behaviour is stated by `Format.TruncTowardZero` and `Format.TruncMonotone` |
| Format.Fmt2 | app.py:31 | no contract of its own; its behaviour is stated by `Format.Fmt2Reads`, `Format.Fmt2Nearest`, `Format.Fmt2Canonical` and `Format.Fmt2Example` |
| Format.Fmt2Canonical | app.py:31 | the two-decimal text is an optional minus sign, an integer part of digits with no leading zero, a point and two digits, so with `Format.Fmt2Reads` the text is fixed completely |
| Format.Fmt2Reads | app.py:31 | the two-decimal text reads back as the signed number of hundredths it rounded to, and starts with '-' exactly when x < 0 |
| Format.Fmt2Nearest | app.py:31 | the two-decimal text reads back as a number at most 0.005 from x, and starts with '-' exactly when x < 0 |
| Format.Fmt2Example | app.py:31 | 0.8734 prints as "0.87", 0.91 as "0.91", and the tie 0.125 as "0.12" |
| Summary.Labels | app.py:91 | label i is the name of class id i; one label per id |
| Summary.Add | app.py:92 | no contract of its own; its behaviour is stated by `Summary.AddEffect` |
| Summary.Count | app.py:92 | no contract of its own; its behaviour is stated by `Summary.CountDistinct`, `Summary.CountCovers`, `Summary.CountOccurrences`, `Summary.CountFirstSeenOrder`, `Summary.CountTotal` and `Summary.CountSize` |
| Summary.AddEffect | app.py:92 | adding a listed name increments only its count; an unlisted name is appended with count 1 |
| Summary.CountDistinct | app.py:92 | no name is listed twice |
| Summary.CountCovers | app.py:92 | the listed names are exactly the labels that occur |
| Summary.CountOccurrences | app.py:92 | each listed count equals the name's number of occurrences |
| Summary.CountFirstSeenOrder | app.py:92-93 | names are listed in the order of their first occurrence |
| Summary.CountTotal | app.py:92 | the counts add up to the number of labels |
| Summary.CountSize | app.py:92 | there is one item per distinct label |
| Summary.CountRepeatedName | app.py:92 | counting dog, person, dog gives dog 2 then person 1 |
| Summary.SummaryLines | app.py:91-93 | one line per counted name, in counter order, reading "name: n" where n is the name's number of occurrences among the labels |
| Summary.SummaryShape | app.py:91-93 | as many lines as distinct names; every count is at least 1; counts add up to the number of detections; no detections give no lines |
| Summary.SummaryOnePerson | app.py:91-93 | one detected person gives ["person: 1"] |
| Gate.Admit | app.py:54-62 | a missing `image` field is rejected first; "No selected file." comes exactly when the field is present with an empty filename; an unreadable image is reported exactly when the field is present, its filename is non-empty and its bytes do not decode; otherwise the decoded size and `Threshold` of the form value are accepted |
| Gate.Message | app.py:55-62 | no contract of its own; its behaviour is stated by `Gate.MessagesDistinct` and `Gate.RejectionPage` |
| Gate.MessagesDistinct | app.py:55-62 | the three rejections have different messages |
| Gate.RejectionPage | app.py:99-101 | a rejection renders with no image and no summary, its own message and status 400 |
| Gate.Threshold | app.py:65 | the threshold is never 0.0; a parsed non-zero value is used unchanged, with no range check; a missing, unparsable or zero value gives 0.25 |
| Gate.ZeroThresholdIsDefault | app.py:65 | a submitted 0.0 gives the same threshold as none, 0.25 |

## Left out

- Flask routing, `index`, `health`, templates, `send_file` and the `return=image` switch (app.py:44-50, 86-88, 95-96): web plumbing with no logic to prove.
- The YOLO model and its `predict` call (app.py:14, 67-69): a foreign neural network. Its output enters as the parameters of `DrawBoxes` and `SummaryLines`.
- The numpy conversions and the empty-result branch (app.py:71-81): the model takes the arrays as sequences, and an empty result is the empty sequence.
- Pixel rendering by Pillow: an image records its drawing commands in order rather than changing pixels. Pillow's own refusal of rectangles with x2 < x1 or y2 < y1 is not modelled.
- Text measurement (`textbbox`, app.py:33): a parameter `measure` of `DrawBoxes` giving the label's width and height.
- Font loading (app.py:24-26): whether `truetype` succeeds is a boolean parameter.
- JPEG encoding and base64 (app.py:39-42, 84, 95): byte formats outside the logic.
- Parsing the `conf` form field with `float()`: its outcome is an `Option<real>` in the request.
- Floats are exact reals. NaN, infinities and -0.0 are not represented, so `-0.0 or 0.25` and the formatting of non-finite confidences are not modelled.
- Format.Fmt2Reads: rounds the exact real value of the confidence, not its nearest binary double, so a value whose double lies on the other side of a tie can print differently.
- Summary.SummaryLines: requires every class id to be in `names`. The source raises `KeyError` there, which Flask turns into an HTTP 500; that error path is not modelled.
- Mismatched array lengths: the code zips the arrays, so extra entries of the longer arrays are ignored. A stricter design would reject mismatched lengths as an internal error; the code truncates them with `zip`, and the model follows the code.
- The threshold default: the code takes 0.25 for a missing or unparsable value and also for a submitted 0.0, since `0.0 or 0.25` is 0.25. A reader might expect the default only for a missing or unparsable value; the code also applies it to 0.0, and the model follows the code.
