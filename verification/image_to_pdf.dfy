/** The decisions made when a JPEG or PNG image is turned into a one-page
    US Letter PDF: page orientation, the image format handed to the PDF
    writer, the scale-to-fit-and-centre placement (over exact reals: the
    floating-point rounding of the browser is not modelled) and the name of
    the produced file. */
module ImageToPdf {
  import opened Js
  import opened Services

  datatype Orientation = Portrait | Landscape

  datatype ImageFormat = Png | Jpeg

  /** Natural pixel size of the decoded image. */
  datatype Dimensions = Dimensions(width: nat, height: nat)

  /** Page size in points. */
  datatype PageSize = PageSize(width: real, height: real)

  /** Where the image is drawn: top-left corner and drawn size, in points. */
  datatype Placement = Placement(x: real, y: real, width: real, height: real)

  /** The image file handed to the converter. */
  datatype ImageFile = ImageFile(name: string, mimeType: string)

  /** The produced file and the page it holds. */
  datatype PdfOutput = PdfOutput(
    name: string,
    mimeType: string,
    orientation: Orientation,
    page: PageSize,
    format: ImageFormat,
    placement: Placement)

  /** Half an inch on every side. */
  const Margin: real := 36.0

  /** Landscape exactly for images wider than tall; a square image is portrait. */
  function OrientationFor(d: Dimensions): (o: Orientation)
    ensures o == Landscape <==> d.width > d.height
  {
    if d.width > d.height then Landscape else Portrait
  }

  /** PNG exactly for the MIME type `image/png`; everything else is sent as JPEG. */
  function FormatFor(mimeType: string): (f: ImageFormat)
    ensures f == Png <==> mimeType == "image/png"
  {
    if mimeType == "image/png" then Png else Jpeg
  }

  /** The letter page of the PDF writer in points, turned for landscape. */
  function LetterPage(o: Orientation): (p: PageSize)
    ensures o == Portrait ==> p.width < p.height
    ensures o == Landscape ==> p.width > p.height
    ensures {p.width, p.height} == {612.0, 792.0}
  {
    if o == Portrait then PageSize(612.0, 792.0) else PageSize(792.0, 612.0)
  }

  /** The page leaves room inside its margins (every letter page does). */
  predicate RoomForImage(page: PageSize) {
    page.width > 2.0 * Margin && page.height > 2.0 * Margin
  }

  function Min(a: real, b: real): real {
    if a <= b then a else b
  }

  /** `Math.min(maxWidth / width, maxHeight / height, 1)`. A zero dimension
      makes its quotient +Infinity in `convertImageToPdf`, which `Math.min` then
      ignores; the model uses 1 in its place, to the same effect. */
  function Scale(d: Dimensions, page: PageSize): real
    requires RoomForImage(page)
  {
    var maxWidth := page.width - 2.0 * Margin;
    var maxHeight := page.height - 2.0 * Margin;
    var byWidth := if d.width > 0 then maxWidth / (d.width as real) else 1.0;
    var byHeight := if d.height > 0 then maxHeight / (d.height as real) else 1.0;
    Min(Min(byWidth, byHeight), 1.0)
  }

  /** The image scaled by `Scale` and centred on the page. */
  function Layout(d: Dimensions, page: PageSize): (p: Placement)
    requires RoomForImage(page)
    // never enlarged, never flipped
    ensures 0.0 < Scale(d, page) <= 1.0
    ensures p.width == (d.width as real) * Scale(d, page) && p.height == (d.height as real) * Scale(d, page)
    // inside the margins on every side
    ensures Margin <= p.x && p.x + p.width <= page.width - Margin
    ensures Margin <= p.y && p.y + p.height <= page.height - Margin
    // centred: equal gaps left and right, top and bottom
    ensures p.x == page.width - (p.x + p.width)
    ensures p.y == page.height - (p.y + p.height)
  {
    var s := Scale(d, page);
    ScaleFits(d, page);
    var w := (d.width as real) * s;
    var h := (d.height as real) * s;
    Placement((page.width - w) / 2.0, (page.height - h) / 2.0, w, h)
  }

  /** The scale is positive, at most 1, and small enough for both sides. */
  lemma ScaleFits(d: Dimensions, page: PageSize)
    requires RoomForImage(page)
    ensures 0.0 < Scale(d, page) <= 1.0
    ensures (d.width as real) * Scale(d, page) <= page.width - 2.0 * Margin
    ensures (d.height as real) * Scale(d, page) <= page.height - 2.0 * Margin
  {
    var maxWidth := page.width - 2.0 * Margin;
    var maxHeight := page.height - 2.0 * Margin;
    if d.width > 0 {
      QuotientBound(d.width as real, maxWidth, Scale(d, page));
    }
    if d.height > 0 {
      QuotientBound(d.height as real, maxHeight, Scale(d, page));
    }
  }

  /** A factor no larger than `room / size` keeps `size` within `room`. */
  lemma QuotientBound(size: real, room: real, factor: real)
    requires size > 0.0 && room > 0.0 && factor <= room / size
    ensures room / size > 0.0
    ensures size * factor <= room
  {
    assert size * factor <= size * (room / size);
  }

  /** The drawn size keeps the image's aspect ratio. */
  lemma AspectPreserved(d: Dimensions, page: PageSize)
    requires RoomForImage(page)
    ensures Layout(d, page).width * (d.height as real) == Layout(d, page).height * (d.width as real)
  {
    var s := Scale(d, page);
    var w, h := d.width as real, d.height as real;
    assert (w * s) * h == (h * s) * w;
  }

  /** The scale is the largest that fits: either the image is drawn at its
      natural size, or it touches the margins in width or in height. */
  lemma ScaleIsLargestFit(d: Dimensions, page: PageSize)
    requires RoomForImage(page)
    ensures var p := Layout(d, page);
      || Scale(d, page) == 1.0
      || p.width == page.width - 2.0 * Margin
      || p.height == page.height - 2.0 * Margin
  {
    var s := Scale(d, page);
    var maxWidth := page.width - 2.0 * Margin;
    var maxHeight := page.height - 2.0 * Margin;
    if s != 1.0 {
      if d.width > 0 && s == maxWidth / (d.width as real) {
        assert (d.width as real) * (maxWidth / (d.width as real)) == maxWidth;
      } else {
        assert d.height > 0 && s == maxHeight / (d.height as real);
        assert (d.height as real) * (maxHeight / (d.height as real)) == maxHeight;
      }
    }
  }

  // ---------------------------------------------------------------------------
  // file name

  /** ASCII lower case of a whole string. */
  function Lower(s: string): (r: string)
    ensures |r| == |s|
  {
    seq(|s|, i requires 0 <= i < |s| => LowerAscii(s[i]))
  }

  /** Length of the image extension the name ends with, ignoring case: 5 for
      `.jpeg`, 4 for `.jpg` or `.png`, 0 for none. */
  function ImageExtensionLength(name: string): nat {
    if |name| >= 5 && Lower(name[|name| - 5..]) == ".jpeg" then 5
    else if |name| >= 4 && (Lower(name[|name| - 4..]) == ".jpg" || Lower(name[|name| - 4..]) == ".png") then 4
    else 0
  }

  /** `name.replace(/\.(jpe?g|png)$/i, '.pdf')`. */
  function PdfFileName(name: string): string {
    var k := ImageExtensionLength(name);
    if k == 0 then name else name[..|name| - k] + ".pdf"
  }

  /** Comparing a lower-cased slice with a lower-case literal is a
      case-insensitive comparison. */
  lemma LowerMatchesIgnoreCase(s: string, ext: string)
    requires forall i :: 0 <= i < |ext| ==> LowerAscii(ext[i]) == ext[i]
    ensures Lower(s) == ext <==> EqualsIgnoreCase(s, ext)
  {
    if EqualsIgnoreCase(s, ext) {
      assert forall i :: 0 <= i < |s| ==> Lower(s)[i] == ext[i];
    }
  }

  /** The extension the scan reports is the one the name ends with. */
  lemma ExtensionLengthSpec(name: string)
    ensures ImageExtensionLength(name) == 5 <==> EndsWithIgnoreCase(name, ".jpeg")
    ensures ImageExtensionLength(name) == 4 <==>
      !EndsWithIgnoreCase(name, ".jpeg") && (EndsWithIgnoreCase(name, ".jpg") || EndsWithIgnoreCase(name, ".png"))
  {
    if |name| >= 5 {
      LowerMatchesIgnoreCase(name[|name| - 5..], ".jpeg");
    }
    if |name| >= 4 {
      LowerMatchesIgnoreCase(name[|name| - 4..], ".jpg");
      LowerMatchesIgnoreCase(name[|name| - 4..], ".png");
    }
  }

  /** A name ending in `.jpeg` does not also end in `.jpg` or `.png`: the
      three alternatives of the pattern never compete. */
  lemma ExtensionsExclusive(name: string)
    ensures EndsWithIgnoreCase(name, ".jpeg") ==> !EndsWithIgnoreCase(name, ".jpg") && !EndsWithIgnoreCase(name, ".png")
    ensures EndsWithIgnoreCase(name, ".jpg") ==> !EndsWithIgnoreCase(name, ".png")
  {
    if EndsWithIgnoreCase(name, ".jpeg") {
      var n := |name|;
      assert name[n - 5..][1] == name[n - 4];
      assert LowerAscii(name[n - 4]) == 'j';
      assert name[n - 4..][0] == name[n - 4];
    }
    if EndsWithIgnoreCase(name, ".jpg") {
      var n := |name|;
      assert name[n - 4..][1] == name[n - 3];
      assert LowerAscii(name[n - 3]) == 'j';
    }
  }

  /** The rename, stated against the pattern: exactly a final `.jpg`,
      `.jpeg` or `.png`, in any letter case, is replaced by `.pdf`; any other
      name is left as it is. */
  lemma PdfFileNameSpec(name: string)
    ensures EndsWithIgnoreCase(name, ".jpg") ==> PdfFileName(name) == name[..|name| - 4] + ".pdf"
    ensures EndsWithIgnoreCase(name, ".jpeg") ==> PdfFileName(name) == name[..|name| - 5] + ".pdf"
    ensures EndsWithIgnoreCase(name, ".png") ==> PdfFileName(name) == name[..|name| - 4] + ".pdf"
    ensures !EndsWithIgnoreCase(name, ".jpg") && !EndsWithIgnoreCase(name, ".jpeg") && !EndsWithIgnoreCase(name, ".png")
            ==> PdfFileName(name) == name
  {
    ExtensionLengthSpec(name);
    ExtensionsExclusive(name);
  }

  /** Only the final extension is touched. */
  lemma RenamesFinalExtensionOnly()
    ensures PdfFileName("a.png.png") == "a.png.pdf"
  {
    assert Lower("a.png.png"[4..])[0] != '.';
    assert Lower("a.png.png"[5..]) == ".png";
  }

  /** The extension is matched whatever its letter case. */
  lemma RenamesUpperCaseExtension()
    ensures PdfFileName("SCAN.JPEG") == "SCAN.pdf"
  {
    assert Lower("SCAN.JPEG"[4..]) == ".jpeg";
  }

  /** A name without an image extension is kept. */
  lemma KeepsOtherNames()
    ensures PdfFileName("photo.gif") == "photo.gif"
  {
    assert Lower("photo.gif"[4..])[0] != '.';
    assert Lower("photo.gif"[5..])[1] != Lower(".jpg")[1] && Lower("photo.gif"[5..])[1] != Lower(".png")[1];
  }

  // ---------------------------------------------------------------------------
  // the conversion

  /** `convertImageToPdf` without its browser I/O: the image's decoded size
      is given. */
  function ConvertImageToPdf(file: ImageFile, d: Dimensions): (out: PdfOutput)
    ensures out.mimeType == PdfMimeType
    ensures out.name == PdfFileName(file.name)
    ensures out.orientation == Landscape <==> d.width > d.height
    ensures out.page.width > out.page.height <==> d.width > d.height
    ensures out.format == Png <==> file.mimeType == "image/png"
    ensures Margin <= out.placement.x && out.placement.x + out.placement.width <= out.page.width - Margin
    ensures Margin <= out.placement.y && out.placement.y + out.placement.height <= out.page.height - Margin
    // a US Letter page in the chosen orientation, with the image fitted to it
    ensures out.page == LetterPage(out.orientation) && out.placement == Layout(d, out.page)
  {
    var o := OrientationFor(d);
    var page := LetterPage(o);
    PdfOutput(PdfFileName(file.name), PdfMimeType, o, page, FormatFor(file.mimeType), Layout(d, page))
  }
}
