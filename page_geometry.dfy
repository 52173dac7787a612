/** Page geometry for the positioned document: pixel-to-inch conversion,
    resolution lookup, orientation, scaling to A4, and the section and
    paragraph setup of the output document. Lengths are inches as `real`. */
module PageGeometry {
  import opened Wrappers

  /** A4 paper in inches (210 mm by 297 mm, 25.4 mm to the inch). */
  const A4Width: real := 210.0 / 25.4
  const A4Height: real := 297.0 / 25.4

  /** Resolution assumed when the image carries no `dpi` metadata. */
  const DefaultDpi: real := 300.0

  /** A length of `pixels` at `dpi` dots per inch, in inches. */
  function PixelsToInches(pixels: int, dpi: real): (inches: real)
    requires dpi != 0.0
    ensures inches * dpi == pixels as real
  {
    pixels as real / dpi
  }

  /** The horizontal resolution from the image's `dpi` metadata pair, or the default. */
  function GetDpi(info: Option<(real, real)>): (dpi: real)
    ensures info.None? ==> dpi == DefaultDpi
    ensures info.Some? ==> dpi == info.value.0
  {
    match info
    case Some(pair) => pair.0
    case None => DefaultDpi
  }

  /** Landscape test: strictly wider than tall. */
  predicate IsHorizontal(width: int, height: int)
  {
    width > height
  }

  /** At most one of an image and its rotation is horizontal; a square one is not. */
  lemma HorizontalAsymmetric(width: int, height: int)
    ensures !(IsHorizontal(width, height) && IsHorizontal(height, width))
    ensures width == height ==> !IsHorizontal(width, height)
  {
  }

  /** Factors that scale the image's physical size to A4. For a horizontal
      image the image's height is matched against the A4 width and its width
      against the A4 height. */
  function ScaleToA4(width: int, height: int, dpi: real): (scale: (real, real))
    requires width != 0 && height != 0 && dpi != 0.0
    ensures !IsHorizontal(width, height) ==>
              scale.0 * PixelsToInches(width, dpi) == A4Width && scale.1 * PixelsToInches(height, dpi) == A4Height
    ensures IsHorizontal(width, height) ==>
              scale.0 * PixelsToInches(height, dpi) == A4Width && scale.1 * PixelsToInches(width, dpi) == A4Height
  {
    if IsHorizontal(width, height) then
      (A4Width / PixelsToInches(height, dpi), A4Height / PixelsToInches(width, dpi))
    else
      (A4Width / PixelsToInches(width, dpi), A4Height / PixelsToInches(height, dpi))
  }

  /** The factors do not depend on orientation: the shorter side always maps
      to the A4 width and the longer side to the A4 height. */
  lemma ScaleToA4Rotation(width: int, height: int, dpi: real)
    requires width != 0 && height != 0 && dpi != 0.0
    ensures ScaleToA4(width, height, dpi) == ScaleToA4(height, width, dpi)
  {
  }

  /** The page setup of one section of the output document. */
  class Section {
    var pageWidth: real
    var pageHeight: real
    var leftMargin: real
    var rightMargin: real
    var topMargin: real
    var bottomMargin: real
    var headerDistance: real
    var footerDistance: real
  }

  /** Size the page to the image and remove every margin; the same section is returned. */
  method SetSectionParameters(section: Section, width: int, height: int, dpi: real) returns (r: Section)
    requires dpi != 0.0
    modifies section
    ensures r == section
    ensures section.pageWidth * dpi == width as real && section.pageHeight * dpi == height as real
    ensures section.leftMargin == section.rightMargin == section.topMargin == section.bottomMargin == 0.0
    ensures section.headerDistance == old(section.headerDistance)
    ensures section.footerDistance == old(section.footerDistance)
  {
    section.pageWidth := PixelsToInches(width, dpi);
    section.pageHeight := PixelsToInches(height, dpi);
    section.leftMargin := 0.0;
    section.rightMargin := 0.0;
    section.topMargin := 0.0;
    section.bottomMargin := 0.0;
    r := section;
  }

  /** One paragraph of the output document, with its single run's font size. */
  datatype Paragraph = Paragraph(text: string, fontSize: real, leftIndent: real, spaceBefore: real, spaceAfter: real)

  /** The output document: its paragraphs in order. */
  class Document {
    var paragraphs: seq<Paragraph>

    constructor ()
      ensures paragraphs == []
    {
      paragraphs := [];
    }
  }

  /** Append a formatted paragraph unless `text` is empty. */
  method AddParagraph(doc: Document, text: string, leftIndent: real, spaceBefore: real, fontSize: real)
    modifies doc
    ensures text == "" ==> doc.paragraphs == old(doc.paragraphs)
    ensures text != "" ==>
              doc.paragraphs == old(doc.paragraphs) + [Paragraph(text, fontSize, leftIndent, spaceBefore, 0.0)]
  {
    if text != "" {
      doc.paragraphs := doc.paragraphs + [Paragraph(text, fontSize, leftIndent, spaceBefore, 0.0)];
    }
  }
}
