/** The blank-canvas check in downloadImage (script.js).

    Before exporting, the RGBA pixel data of the whole surface is scanned
    four bytes at a time; the canvas has content as soon as one pixel has a
    red, green or blue byte other than 255. The alpha byte is never looked
    at, and the comparison is with white whatever the chosen background.
    A canvas without content is not exported. */
module Export {

  /** One entry of the Uint8ClampedArray returned by getImageData. */
  type Byte = b: int | 0 <= b < 256

  /** Byte j is present and fully on. A read past the end of the array
      yields undefined in JavaScript, which is not 255. */
  predicate ChannelFull(data: seq<Byte>, j: nat) {
    j < |data| && data[j] == 255
  }

  /** The pixel starting at byte 4p differs from white in R, G or B. */
  predicate IsContentPixel(data: seq<Byte>, p: nat) {
    !ChannelFull(data, 4 * p) || !ChannelFull(data, 4 * p + 1) || !ChannelFull(data, 4 * p + 2)
  }

  /** Some pixel the scan visits is not white. */
  ghost predicate HasContent(data: seq<Byte>) {
    exists p: nat | 4 * p < |data| :: IsContentPixel(data, p)
  }

  /** The stride-4 scan with its early exit. */
  method CheckContent(data: array<Byte>) returns (hasContent: bool)
    ensures hasContent <==> HasContent(data[..])
  {
    hasContent := false;
    var i := 0;
    while i < data.Length
      invariant i % 4 == 0
      invariant 0 <= i <= data.Length + 3
      invariant forall p: nat :: 4 * p < i ==> !IsContentPixel(data[..], p)
      decreases data.Length - i
    {
      if data[i] != 255 || (i + 1 >= data.Length || data[i + 1] != 255) || (i + 2 >= data.Length || data[i + 2] != 255) {
        assert IsContentPixel(data[..], i / 4);
        hasContent := true;
        break;
      }
      assert !IsContentPixel(data[..], i / 4);
      i := i + 4;
    }
    if !hasContent {
      forall p: nat | 4 * p < data.Length ensures !IsContentPixel(data[..], p) {
        assert 4 * p < i;
      }
    }
  }

  /** The two image formats the export offers. */
  datatype Format = Png | Jpeg

  /** What downloadImage ends in: a refusal because the canvas looks empty,
      or a link whose file extension and data URL type follow the format. */
  datatype Outcome = LooksEmpty | Link(extension: string, mimeType: string)

  /** The file extension and MIME type for a requested format name: "png"
      gives PNG and anything else JPEG. */
  function FormatOf(format: string): Format {
    if format == "png" then Png else Jpeg
  }

  function LinkFor(f: Format): Outcome {
    match f
    case Png => Link(".png", "image/png")
    case Jpeg => Link(".jpg", "image/jpeg")
  }

  /** downloadImage: check for content, then build the link. */
  method DownloadImage(data: array<Byte>, format: string) returns (outcome: Outcome)
    ensures outcome == LooksEmpty <==> !HasContent(data[..])
    ensures HasContent(data[..]) ==> outcome == LinkFor(FormatOf(format))
  {
    var hasContent := CheckContent(data);
    if !hasContent {
      return LooksEmpty;
    }
    if format == "png" {
      outcome := Link(".png", "image/png");
    } else {
      outcome := Link(".jpg", "image/jpeg");
    }
  }

  /** A surface filled with opaque or transparent white has no content. */
  lemma WhiteIsEmpty(data: seq<Byte>)
    requires |data| % 4 == 0
    requires forall j :: 0 <= j < |data| && j % 4 != 3 ==> data[j] == 255
    ensures !HasContent(data)
  {
    forall p: nat | 4 * p < |data| ensures !IsContentPixel(data, p) {
      assert (4 * p) % 4 == 0 && (4 * p + 1) % 4 == 1 && (4 * p + 2) % 4 == 2;
      assert 4 * p + 2 < |data|;
    }
  }

  /** The alpha bytes never change the verdict. */
  lemma AlphaIgnored(data: seq<Byte>, other: seq<Byte>)
    requires |data| == |other|
    requires forall j :: 0 <= j < |data| && j % 4 != 3 ==> data[j] == other[j]
    ensures HasContent(data) <==> HasContent(other)
  {
    forall p: nat | 4 * p < |data| ensures IsContentPixel(data, p) <==> IsContentPixel(other, p) {
      assert (4 * p) % 4 == 0 && (4 * p + 1) % 4 == 1 && (4 * p + 2) % 4 == 2;
    }
  }

  /** A single pixel of any non-white colour counts as content, so a page
      whose background colour is not white always has content, even with
      no text on it. */
  lemma NonWhitePixelIsContent(data: seq<Byte>, p: nat, channel: nat)
    requires 4 * p + 3 < |data| && channel < 3
    requires data[4 * p + channel] != 255
    ensures HasContent(data)
  {
    assert IsContentPixel(data, p);
  }

  /** A trailing partial pixel counts as content: the bytes it lacks read as
      undefined. */
  lemma PartialPixelIsContent(data: seq<Byte>)
    requires |data| % 4 != 0 && |data| % 4 != 3
    ensures HasContent(data)
  {
    var p := |data| / 4;
    assert 4 * p < |data| && 4 * p + 2 >= |data|;
    assert IsContentPixel(data, p);
  }
}
