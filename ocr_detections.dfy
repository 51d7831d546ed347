/** OCR detections and the box geometry the layout reconstruction uses
    (src/medical_ocr/ocr_processor.py).  Coordinates are integers, as in
    PaddleOCR's polygons; every "centre" of the source, a mean of two
    coordinates, is kept here doubled (the sum of the two), so that
    comparisons stay exact without the division by two. */
module OcrDetections {
  import opened Sorting

  datatype Point = Point(x: int, y: int)

  /** A detection's polygon: four corners, clockwise from the top-left. */
  datatype Box = Box(topLeft: Point, topRight: Point, bottomRight: Point, bottomLeft: Point)

  /** One recognised text fragment: `{'box', 'text', 'score'}`. */
  datatype Detection = Detection(box: Box, text: string, score: real)

  /** The page result of the OCR engine: its parallel arrays `rec_texts`,
      `rec_polys` and `rec_scores`. */
  datatype OcrPage = OcrPage(recTexts: seq<string>, recPolys: seq<Box>, recScores: seq<real>)

  function Abs(n: int): nat {
    if n < 0 then -n else n
  }

  function Min3(a: nat, b: nat, c: nat): nat {
    if a <= b && a <= c then a else if b <= c then b else c
  }

  /** `box[0][1]`, the top-left y. */
  function TopY(d: Detection): int {
    d.box.topLeft.y
  }

  /** `box[0][0]`, the top-left x. */
  function LeftX(d: Detection): int {
    d.box.topLeft.x
  }

  /** Twice the y-centre `(box[0][1] + box[2][1]) / 2`: top-left and bottom-right y. */
  function DoubledYCentre(d: Detection): int {
    d.box.topLeft.y + d.box.bottomRight.y
  }

  /** Twice the x-centre `(box[0][0] + box[1][0]) / 2`: top-left and top-right x. */
  function DoubledXCentre(d: Detection): int {
    d.box.topLeft.x + d.box.topRight.x
  }

  /** The sort key `(box[0][1], box[0][0])`: top-left y, then top-left x. */
  predicate ReadingOrderLe(a: Detection, b: Detection) {
    TopY(a) < TopY(b) || (TopY(a) == TopY(b) && LeftX(a) <= LeftX(b))
  }

  /** The sort key `box[0][0]`: top-left x alone. */
  predicate LeftLe(a: Detection, b: Detection) {
    LeftX(a) <= LeftX(b)
  }

  lemma ReadingOrderIsPreorder()
    ensures TotalPreorder(ReadingOrderLe)
  {
  }

  lemma LeftOrderIsPreorder()
    ensures TotalPreorder(LeftLe)
  {
  }

  /** The detections of one page as a value: its three arrays zipped. */
  function Zip(page: OcrPage): seq<Detection> {
    var n := Min3(|page.recPolys|, |page.recTexts|, |page.recScores|);
    seq(n, i requires 0 <= i < n => Detection(page.recPolys[i], page.recTexts[i], page.recScores[i]))
  }

  /** `extract_detections`: `zip(boxes, texts, scores)` turned into detection
      records.  `zip` stops at the shortest of the three arrays, so arrays of
      unequal length are cut to the shortest, silently. */
  method ExtractDetections(page: OcrPage) returns (detections: seq<Detection>)
    ensures detections == Zip(page)
    ensures |detections| == Min3(|page.recPolys|, |page.recTexts|, |page.recScores|)
    ensures forall i :: 0 <= i < |detections| ==>
      detections[i] == Detection(page.recPolys[i], page.recTexts[i], page.recScores[i])
  {
    detections := [];
    var n := Min3(|page.recPolys|, |page.recTexts|, |page.recScores|);
    for i := 0 to n
      invariant |detections| == i
      invariant forall k :: 0 <= k < i ==>
        detections[k] == Detection(page.recPolys[k], page.recTexts[k], page.recScores[k])
    {
      detections := detections + [Detection(page.recPolys[i], page.recTexts[i], page.recScores[i])];
    }
  }
}
