/** Text extraction (`generate_output_text`): every page is recognised, its
    fields are associated with text lines, the table is filtered and grouped,
    and each output line contributes its tokens joined by single spaces and
    followed by a newline. */
module DocumentGenerator {
  import opened Sequences
  import opened PyStrings
  import opened ImageProcessing
  import opened LineGrouping

  /** The horizontal tolerance the generator passes to `process_image`. */
  const GeneratorShift: int := 50

  /** The tokens of a line joined by single spaces. */
  function JoinedLine(l: Line): string
  {
    Join(l.text, " ")
  }

  /** A line of output text: the joined tokens and a newline. */
  function LineText(l: Line): string
  {
    JoinedLine(l) + "\n"
  }

  /** The text of one page: its lines, top to bottom. */
  function PageText(lines: seq<Line>): string
  {
    Concat(Map(lines, LineText))
  }

  /** The text one page contributes at a given confidence threshold. */
  function ImageText(image: Image, threshold: real): string
  {
    PageText(FilterDataFrame(Merged(image.ocr, image.rects, GeneratorShift), threshold))
  }

  /** The text of a whole document: its pages in order. */
  function OutputText(images: seq<Image>, threshold: real): string
  {
    Concat(Map(images, (image: Image) => ImageText(image, threshold)))
  }

  /** The generator loop: page by page, the output grows by each page's text. */
  method GenerateOutputText(images: seq<Image>, threshold: real) returns (out: string)
    ensures out == OutputText(images, threshold)
  {
    out := "";
    var n := 0;
    while n < |images|
      invariant 0 <= n <= |images|
      invariant out == OutputText(images[..n], threshold)
    {
      var df, fields, dpi := ProcessImage(images[n], GeneratorShift);
      var lines := FilterDataFrame(df, threshold);
      ghost var before := out;
      out := AppendPageText(out, lines);
      OutputTextStep(images, threshold, n, df, before, out);
      n := n + 1;
    }
    assert images[..n] == images;
  }

  /** The inner loop over one page's lines: each line's joined tokens and a
      newline. The flag marking the first line of a page selects between two
      branches that do the same thing. */
  method AppendPageText(prefix: string, lines: seq<Line>) returns (out: string)
    ensures out == prefix + PageText(lines)
  {
    out := prefix;
    var foundStart := false;
    var k := 0;
    while k < |lines|
      invariant 0 <= k <= |lines|
      invariant out == prefix + PageText(lines[..k])
    {
      if foundStart {
        var text := Join(lines[k].text, " ");
        PageTextStep(lines, k, prefix, out, text);
        out := out + text + "\n";
      } else {
        var text := Join(lines[k].text, " ");
        PageTextStep(lines, k, prefix, out, text);
        out := out + text + "\n";
        foundStart := true;
      }
      k := k + 1;
    }
    assert lines[..k] == lines;
  }

  lemma PageTextStep(lines: seq<Line>, k: int, before: string, out: string, text: string)
    requires 0 <= k < |lines| && out == before + PageText(lines[..k]) && text == Join(lines[k].text, " ")
    ensures out + text + "\n" == before + PageText(lines[..k + 1])
  {
    ConcatMapSnoc(lines, LineText, k);
  }

  lemma OutputTextStep(images: seq<Image>, threshold: real, n: int, df: seq<Row>, before: string, out: string)
    requires 0 <= n < |images| && df == Merged(images[n].ocr, images[n].rects, GeneratorShift)
    requires before == OutputText(images[..n], threshold)
    requires out == before + PageText(FilterDataFrame(df, threshold))
    ensures out == OutputText(images[..n + 1], threshold)
  {
    ConcatMapSnoc(images, (image: Image) => ImageText(image, threshold), n);
  }

  /** No pages, no text. */
  lemma OutputTextEmpty(threshold: real)
    ensures OutputText([], threshold) == ""
  {
  }

  /** The text of a document split into two parts is the text of the first
      part followed by the text of the second. */
  lemma OutputTextAppend(a: seq<Image>, b: seq<Image>, threshold: real)
    ensures OutputText(a + b, threshold) == OutputText(a, threshold) + OutputText(b, threshold)
  {
    ConcatMapAppend(a, b, (image: Image) => ImageText(image, threshold));
  }

  /** A page's text is its joined lines, each followed by a newline. */
  lemma {:induction false} PageTextAsJoin(lines: seq<Line>)
    ensures PageText(lines) == Join(Map(lines, JoinedLine) + [""], "\n")
  {
    if lines != [] {
      PageTextAsJoin(lines[1..]);
      var ts := Map(lines, JoinedLine) + [""];
      assert ts[1..] == Map(lines[1..], JoinedLine) + [""];
      assert Map(lines, LineText)[1..] == Map(lines[1..], LineText);
    }
  }

  /** When no token holds a newline, splitting a page's text at newlines
      gives back its lines one by one, then the empty remainder after the
      final newline. */
  lemma PageTextLines(lines: seq<Line>)
    requires forall i, j :: 0 <= i < |lines| && 0 <= j < |lines[i].text| ==> '\n' !in lines[i].text[j]
    ensures Split(PageText(lines), '\n') == Map(lines, JoinedLine) + [""]
  {
    var ts := Map(lines, JoinedLine) + [""];
    forall i | 0 <= i < |ts| ensures '\n' !in ts[i] {
      if i < |lines| {
        JoinExcludes(lines[i].text, " ", '\n');
      }
    }
    PageTextAsJoin(lines);
    SplitJoin(ts, '\n');
  }

  /** When no token holds a space, a line's tokens are recovered by splitting
      its text at spaces. */
  lemma LineTokensRecovered(l: Line)
    requires l.text != []
    requires forall j :: 0 <= j < |l.text| ==> ' ' !in l.text[j]
    ensures Split(JoinedLine(l), ' ') == l.text
  {
    SplitJoin(l.text, ' ');
  }
}
