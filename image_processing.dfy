/** Field records and their association with OCR text lines: the record
    construction of `crop_fields`, the corner test `assign_graph_to_line`,
    and the association loop and table concatenation of `process_image`. */
module ImageProcessing {
  import opened Wrappers
  import opened Sequences
  import PageGeometry

  /** One row of the OCR backend's table: hierarchy level and address, pixel
      box, confidence (non-positive for structural rows) and the recognised
      token, missing for structural rows. */
  datatype OcrRow = OcrRow(
    level: int, pageNum: int, blockNum: int, parNum: int, lineNum: int, wordNum: int,
    left: int, top: int, width: int, height: int,
    conf: real, text: Option<string>)

  /** The bounding rectangle of one contour of the field mask. */
  datatype Rect = Rect(x: int, y: int, w: int, h: int)

  /** A row of the merged table: an OCR row without its `level` and
      `page_num` columns, or a field record (no word number). */
  datatype Row = Row(
    blockNum: int, parNum: int, lineNum: int, wordNum: Option<int>,
    left: int, top: int, width: int, height: int,
    conf: real, text: Option<string>, fieldId: Option<int>)

  /** The OCR level of text lines. */
  const LineLevel := 4
  /** The confidence given to every field record. */
  const FieldConf: real := 90.0
  /** The placeholder text of every field record. */
  const FieldText: string := " "

  /** A page as the engine receives it: the OCR table, the contour
      rectangles of the field mask, and the `dpi` metadata if present. */
  datatype Image = Image(ocr: seq<OcrRow>, rects: seq<Rect>, dpiInfo: Option<(real, real)>)

  function RectOf(r: Row): Rect
  {
    Rect(r.left, r.top, r.width, r.height)
  }

  /** The record of the field with 1-based number `id` found at `r`. */
  function FieldRecord(r: Rect, id: int): Row
  {
    Row(-id, -id, -id, None, r.x, r.y, r.w, r.h, FieldConf, Some(FieldText), Some(id))
  }

  /** The field records of `crop_fields`, numbered 1, 2, ... in contour order,
      each with a negative placeholder hierarchy address of its own. */
  function FieldRecords(rects: seq<Rect>): (fields: seq<Row>)
    ensures |fields| == |rects|
    ensures forall i :: 0 <= i < |fields| ==>
              RectOf(fields[i]) == rects[i] && fields[i].fieldId == Some(i + 1) && fields[i].wordNum.None?
    ensures forall i :: 0 <= i < |fields| ==>
              fields[i].blockNum == fields[i].parNum == fields[i].lineNum == -(i + 1)
    ensures forall i :: 0 <= i < |fields| ==> fields[i].conf == FieldConf && fields[i].text == Some(FieldText)
  {
    seq(|rects|, i requires 0 <= i < |rects| => FieldRecord(rects[i], i + 1))
  }

  /** Field numbers are unique within a page. */
  lemma FieldIdsUnique(rects: seq<Rect>, i: int, j: int)
    requires 0 <= i < |rects| && 0 <= j < |rects| && i != j
    ensures FieldRecords(rects)[i].fieldId != FieldRecords(rects)[j].fieldId
  {
  }

  /** Build the field records by appending one record per rectangle. */
  method CropFields(rects: seq<Rect>) returns (fields: seq<Row>)
    ensures fields == FieldRecords(rects)
  {
    fields := [];
    var i := 1;
    while i <= |rects|
      invariant 1 <= i <= |rects| + 1
      invariant |fields| == i - 1
      invariant forall k :: 0 <= k < i - 1 ==> fields[k] == FieldRecord(rects[k], k + 1)
    {
      var rect := rects[i - 1];
      fields := fields + [Row(-i, -i, -i, None, rect.x, rect.y, rect.w, rect.h, FieldConf, Some(FieldText), Some(i))];
      i := i + 1;
    }
  }

  /** `x` lies in the line's horizontal extent widened by `shift` on each side. */
  predicate InBand(x: int, line: OcrRow, shift: int)
  {
    line.left - shift <= x <= line.left + line.width + shift
  }

  /** `y` lies in the line's vertical extent, bounds included. */
  predicate InStrip(y: int, line: OcrRow)
  {
    line.top <= y <= line.top + line.height
  }

  predicate Covers(line: OcrRow, corner: (int, int), shift: int)
  {
    InBand(corner.0, line, shift) && InStrip(corner.1, line)
  }

  /** The corner test: some corner of the field's box lies in the line's
      widened band. Equivalently, one of the field's vertical edges is in the
      band and one of its horizontal edges is in the line's strip. */
  function AssignGraphToLine(graph: Row, line: OcrRow, shift: int): (b: bool)
    ensures b <==> (InBand(graph.left, line, shift) || InBand(graph.left + graph.width, line, shift))
                   && (InStrip(graph.top, line) || InStrip(graph.top + graph.height, line))
  {
    var right := graph.left + graph.width;
    var bottom := graph.top + graph.height;
    || Covers(line, (graph.left, graph.top), shift)
    || Covers(line, (right, graph.top), shift)
    || Covers(line, (graph.left, bottom), shift)
    || Covers(line, (right, bottom), shift)
  }

  /** A larger tolerance never loses a match. */
  lemma AssignMonotone(graph: Row, line: OcrRow, shift: int, shift': int)
    requires shift <= shift'
    ensures AssignGraphToLine(graph, line, shift) ==> AssignGraphToLine(graph, line, shift')
  {
  }

  /** The tolerance is horizontal only: no tolerance rescues a field whose
      top and bottom edges both lie outside the line's strip. */
  lemma NoVerticalTolerance(graph: Row, line: OcrRow, shift: int)
    requires !InStrip(graph.top, line) && !InStrip(graph.top + graph.height, line)
    ensures !AssignGraphToLine(graph, line, shift)
  {
  }

  /** `row` is a text line that the field's box touches. */
  predicate Matches(graph: Row, row: OcrRow, shift: int)
  {
    row.level == LineLevel && AssignGraphToLine(graph, row, shift)
  }

  /** The position of the last text line in `ocr` that the field touches, if any. */
  function LastMatch(graph: Row, ocr: seq<OcrRow>, shift: int): (k: Option<nat>)
    ensures k.Some? ==> k.value < |ocr| && Matches(graph, ocr[k.value], shift)
    ensures k.Some? ==> forall j :: k.value < j < |ocr| ==> !Matches(graph, ocr[j], shift)
    ensures k.None? ==> forall j :: 0 <= j < |ocr| ==> !Matches(graph, ocr[j], shift)
  {
    if ocr == [] then None
    else if Matches(graph, ocr[|ocr| - 1], shift) then Some(|ocr| - 1)
    else LastMatch(graph, ocr[..|ocr| - 1], shift)
  }

  /** The field moved to the hierarchy address of `line`. */
  function WithLineOf(graph: Row, line: OcrRow): Row
  {
    graph.(blockNum := line.blockNum, parNum := line.parNum, lineNum := line.lineNum)
  }

  /** The field after association: the address of the last touching text
      line, or its own placeholder address when no line touches it. */
  function Associate(graph: Row, ocr: seq<OcrRow>, shift: int): (f: Row)
  {
    match LastMatch(graph, ocr, shift)
    case Some(k) => WithLineOf(graph, ocr[k])
    case None => graph
  }

  /** Association changes the hierarchy address and nothing else; an
      untouched field keeps its placeholder address. */
  lemma AssociateOnlyMoves(graph: Row, ocr: seq<OcrRow>, shift: int)
    ensures var f := Associate(graph, ocr, shift);
            && f == graph.(blockNum := f.blockNum, parNum := f.parNum, lineNum := f.lineNum)
            && (LastMatch(graph, ocr, shift).None? ==> f == graph)
  {
  }

  function AssociateAll(fields: seq<Row>, ocr: seq<OcrRow>, shift: int): (r: seq<Row>)
    ensures |r| == |fields|
  {
    Map(fields, (f: Row) => Associate(f, ocr, shift))
  }

  /** Extending the OCR table by one row: the new row overrides earlier
      matches exactly when it matches. */
  lemma AssociateStep(graph: Row, ocr: seq<OcrRow>, j: nat, shift: int)
    requires j < |ocr|
    ensures Associate(graph, ocr[..j + 1], shift)
            == if Matches(graph, ocr[j], shift) then WithLineOf(graph, ocr[j]) else Associate(graph, ocr[..j], shift)
  {
    assert ocr[..j + 1][..j] == ocr[..j];
  }

  /** Moving the current field to `ocr[j]` when it touches it is one more
      step of association, since the test reads only the field's box. */
  lemma AssociateLineStep(graph: Row, cur: Row, ocr: seq<OcrRow>, j: nat, shift: int)
    requires j < |ocr| && ocr[j].level == LineLevel
    requires cur == Associate(graph, ocr[..j], shift)
    ensures Associate(graph, ocr[..j + 1], shift)
            == if AssignGraphToLine(cur, ocr[j], shift) then WithLineOf(cur, ocr[j]) else cur
  {
    AssociateStep(graph, ocr, j, shift);
    AssociateOnlyMoves(graph, ocr[..j], shift);
  }

  /** The inner loop: every field the text line touches takes its address. */
  method MoveFieldsToLine(fields: array<Row>, textLine: OcrRow, shift: int)
    modifies fields
    ensures forall k :: 0 <= k < fields.Length ==>
              fields[k] == if AssignGraphToLine(old(fields[k]), textLine, shift)
                           then WithLineOf(old(fields[k]), textLine) else old(fields[k])
  {
    var i := 0;
    while i < fields.Length
      invariant 0 <= i <= fields.Length
      invariant forall k :: 0 <= k < i ==>
                  fields[k] == if AssignGraphToLine(old(fields[k]), textLine, shift)
                               then WithLineOf(old(fields[k]), textLine) else old(fields[k])
      invariant forall k :: i <= k < fields.Length ==> fields[k] == old(fields[k])
    {
      if AssignGraphToLine(fields[i], textLine, shift) {
        fields[i] := fields[i].(blockNum := textLine.blockNum, parNum := textLine.parNum, lineNum := textLine.lineNum);
      }
      i := i + 1;
    }
  }

  /** The association loop: for every text line in table order, every field
      it touches takes over its address, overwriting earlier assignments. */
  method AssociateFields(fields: array<Row>, ocr: seq<OcrRow>, shift: int)
    modifies fields
    ensures fields[..] == AssociateAll(old(fields[..]), ocr, shift)
  {
    ghost var original := fields[..];
    var j := 0;
    while j < |ocr|
      invariant 0 <= j <= |ocr|
      invariant forall k :: 0 <= k < fields.Length ==> fields[k] == Associate(original[k], ocr[..j], shift)
    {
      var textLine := ocr[j];
      if textLine.level == LineLevel {
        ghost var before := fields[..];
        MoveFieldsToLine(fields, textLine, shift);
        forall k | 0 <= k < fields.Length
          ensures fields[k] == Associate(original[k], ocr[..j + 1], shift)
        {
          AssociateLineStep(original[k], before[k], ocr, j, shift);
        }
      } else {
        forall k | 0 <= k < fields.Length
          ensures Associate(original[k], ocr[..j + 1], shift) == Associate(original[k], ocr[..j], shift)
        {
          AssociateStep(original[k], ocr, j, shift);
        }
      }
      j := j + 1;
    }
    assert ocr[..|ocr|] == ocr;
  }

  /** An OCR row in the merged table: `level` and `page_num` dropped, no field. */
  function OcrToRow(r: OcrRow): Row
  {
    Row(r.blockNum, r.parNum, r.lineNum, Some(r.wordNum), r.left, r.top, r.width, r.height, r.conf, r.text, None)
  }

  /** The merged table of `process_image`: every OCR row, then every field record after association. */
  function Merged(ocr: seq<OcrRow>, rects: seq<Rect>, shift: int): seq<Row>
  {
    Map(ocr, OcrToRow) + AssociateAll(FieldRecords(rects), ocr, shift)
  }

  /** The layout of the merged table: row `k` is the `k`-th OCR row, and
      after the OCR rows, row `j` of the rest is the `j + 1`-th field record
      after association. */
  lemma MergedLayout(ocr: seq<OcrRow>, rects: seq<Rect>, shift: int)
    ensures |Merged(ocr, rects, shift)| == |ocr| + |rects|
    ensures forall k :: 0 <= k < |ocr| ==> Merged(ocr, rects, shift)[k] == OcrToRow(ocr[k])
    ensures forall j :: 0 <= j < |rects| ==>
              Merged(ocr, rects, shift)[|ocr| + j] == Associate(FieldRecord(rects[j], j + 1), ocr, shift)
  {
  }

  /** Where a row of the merged table comes from: a row without a field
      number is an OCR row, a row with field number `n` is the `n`-th field
      record after association. */
  lemma MergedRowKind(ocr: seq<OcrRow>, rects: seq<Rect>, shift: int, x: Row)
    requires x in Merged(ocr, rects, shift)
    ensures x.fieldId.None? ==> exists k :: 0 <= k < |ocr| && x == OcrToRow(ocr[k])
    ensures x.fieldId.Some? ==>
              1 <= x.fieldId.value <= |rects|
              && x == Associate(FieldRecord(rects[x.fieldId.value - 1], x.fieldId.value), ocr, shift)
  {
    var ocrRows := Map(ocr, OcrToRow);
    var fields := AssociateAll(FieldRecords(rects), ocr, shift);
    var n :| 0 <= n < |ocrRows| + |fields| && (ocrRows + fields)[n] == x;
    if n >= |ocrRows| {
      var j := n - |ocrRows|;
      assert x == fields[j];
      AssociateOnlyMoves(FieldRecords(rects)[j], ocr, shift);
    }
  }

  /** Detect, number and associate the fields of one page and merge them into its OCR table. */
  method ProcessImage(image: Image, shift: int) returns (df: seq<Row>, fields: seq<Row>, dpi: real)
    ensures dpi == PageGeometry.GetDpi(image.dpiInfo)
    ensures |fields| == |image.rects|
    ensures forall i :: 0 <= i < |fields| ==>
              fields[i] == Associate(FieldRecord(image.rects[i], i + 1), image.ocr, shift)
    ensures |df| == |image.ocr| + |image.rects| && df[|image.ocr|..] == fields
    ensures forall i :: 0 <= i < |image.ocr| ==> df[i] == OcrToRow(image.ocr[i])
    ensures df == Merged(image.ocr, image.rects, shift)
  {
    dpi := PageGeometry.GetDpi(image.dpiInfo);
    var records := CropFields(image.rects);
    var table := new Row[|records|](i requires 0 <= i < |records| => records[i]);
    assert table[..] == records;
    AssociateFields(table, image.ocr, shift);
    fields := table[..];
    df := Map(image.ocr, OcrToRow) + fields;
  }
}
