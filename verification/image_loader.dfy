/** The image node (`LoadImageFromURL.load_image`): fetches and decodes a
    picture, resizes it by the "0 keeps the original size" rule, and returns
    an image tensor with a mask of ones of the same height and width.

    Only sizes are modelled. Fetching and decoding become one outcome passed
    in, and the orientation fix-up after resizing is a flag saying whether the
    picture's orientation tag swaps its axes. */
module ImageLoader {
  import opened Wrappers
  import opened Text

  /** A decoded picture: its size, and whether `exif_transpose` will turn it
      by a quarter (orientation tags 5 to 8). */
  datatype Picture = Picture(width: nat, height: nat, exifSwapsAxes: bool)

  datatype Fetch = FetchFailed(detail: string) | Fetched(picture: Picture)

  datatype ImageError =
    | LoadFailed(detail: string)   // any failure of the request or the decoder
    | ZeroDivision                 // a derived side divides by a zero original side
    | ResizeRefused                // the derived side came out as 0

  const LoadFailedPrefix := "Failed to load image from URL: "

  /** The text of the exception that escapes. Only a failed fetch or decode
      is wrapped; the two resize errors keep Python's and PIL's own text. */
  function ImageErrorMessage(e: ImageError): (m: string)
    ensures e.LoadFailed? <==> StartsWith(m, LoadFailedPrefix)
    ensures e.LoadFailed? ==> EndsWith(m, e.detail)
  {
    match e
    case LoadFailed(detail) =>
      JoinedEnds(LoadFailedPrefix, detail, "");
      LoadFailedPrefix + detail
    case ZeroDivision =>
      DiffersAt("division by zero", LoadFailedPrefix, 0);
      "division by zero"
    case ResizeRefused =>
      DiffersAt("height and width must be > 0", LoadFailedPrefix, 0);
      "height and width must be > 0"
  }

  datatype Size = Size(width: nat, height: nat)

  /** The size the picture is resized to. With both sides given, exactly that
      size; with one side given, the other is scaled by the same ratio and
      truncated towards zero (`int(...)`); with neither, the original size. */
  function TargetSize(w: nat, h: nat, width: nat, height: nat): (r: Result<Size, ImageError>)
    ensures width > 0 && height > 0 ==> r == Success(Size(width, height))
    ensures width == 0 && height == 0 ==> r == Success(Size(w, h))
    ensures width > 0 && height == 0 && w > 0 && r.Success? ==>
              r.value.width == width && r.value.height * w <= h * width < (r.value.height + 1) * w
    ensures width == 0 && height > 0 && h > 0 && r.Success? ==>
              r.value.height == height && r.value.width * h <= w * height < (r.value.width + 1) * h
    ensures r.Success? ==> (r.value.width > 0 && r.value.height > 0) || (width == 0 && height == 0)
    ensures r.Failure? ==> r.error == ZeroDivision || r.error == ResizeRefused
    ensures r == Failure(ZeroDivision) <==> (width > 0 && height == 0 && w == 0) || (width == 0 && height > 0 && h == 0)
    ensures r == Failure(ResizeRefused) <==>
              (width > 0 && height == 0 && 0 < w && h * width < w) || (width == 0 && height > 0 && 0 < h && w * height < h)
  {
    if width > 0 && height > 0 then Success(Size(width, height))
    else if width > 0 then
      if w == 0 then Failure(ZeroDivision)
      else
        var derived := ScaledSide(h, width, w);
        if derived == 0 then Failure(ResizeRefused) else Success(Size(width, derived))
    else if height > 0 then
      if h == 0 then Failure(ZeroDivision)
      else
        var derived := ScaledSide(w, height, h);
        if derived == 0 then Failure(ResizeRefused) else Success(Size(derived, height))
    else Success(Size(w, h))
  }

  /** `int(side * (target / reference))` computed exactly: the largest whole
      number not above the scaled side. */
  function ScaledSide(side: nat, target: nat, reference: nat): (r: nat)
    requires reference > 0
    ensures r * reference <= side * target < (r + 1) * reference
    ensures r == 0 <==> side * target < reference
  {
    (side * target) / reference
  }

  /** Truncation, not rounding: a 2x3 picture asked for width 1 is 1 high,
      although 1.5 rounds to 2. */
  lemma TruncatesNotRounds()
    ensures TargetSize(2, 3, 1, 0) == Success(Size(1, 1))
  {
  }

  /** Scaling down by a whole factor keeps the aspect ratio exactly. */
  lemma WholeFactorKeepsRatio(w: nat, h: nat, f: nat)
    requires w > 0 && h > 0 && f > 0
    ensures TargetSize(w * f, h * f, w, 0) == Success(Size(w, h))
    ensures TargetSize(w * f, h * f, 0, h) == Success(Size(w, h))
  {
    var wf := w * f;
    var hf := h * f;
    assert wf > 0 && hf > 0 by { PositiveProduct(w, f); PositiveProduct(h, f); }
    assert hf * w == h * wf;
    ExactQuotient(ScaledSide(hf, w, wf), h, wf);
    assert wf * h == w * hf;
    ExactQuotient(ScaledSide(wf, h, hf), w, hf);
  }

  lemma PositiveProduct(a: nat, b: nat)
    requires a > 0 && b > 0
    ensures a * b > 0
  {
  }

  /** A whole number whose multiple is bracketed as `q * b <= a * b < (q + 1) * b`
      is `a`. */
  lemma ExactQuotient(q: nat, a: nat, b: nat)
    requires b > 0
    requires q * b <= a * b < (q + 1) * b
    ensures q == a
  {
    if q < a {
      MultiplyMonotone(q + 1, a, b);
    } else if q > a {
      MultiplyMonotone(a, q, b);
    }
  }

  lemma MultiplyMonotone(x: nat, y: nat, b: nat)
    requires x <= y
    ensures x * b <= y * b
  {
  }

  /** The image tensor's and the mask's shapes, and the mask's one value. */
  datatype Output = Output(image: seq<nat>, mask: seq<nat>, maskValue: real)

  /** `load_image`. */
  function LoadImage(width: nat, height: nat, fetch: Fetch): (r: Result<Output, ImageError>)
    ensures fetch.FetchFailed? ==> r == Failure(LoadFailed(fetch.detail))
    ensures fetch.Fetched? && TargetSize(fetch.picture.width, fetch.picture.height, width, height).Failure? ==>
              r == Failure(TargetSize(fetch.picture.width, fetch.picture.height, width, height).error)
    ensures r.Success? <==> fetch.Fetched? && TargetSize(fetch.picture.width, fetch.picture.height, width, height).Success?
    ensures r.Success? ==>
              && |r.value.image| == 4 && r.value.image[0] == 1 && r.value.image[3] == 3
              && r.value.mask == r.value.image[..3]
              && r.value.maskValue == 1.0
    ensures r.Success? ==>
              var s := TargetSize(fetch.picture.width, fetch.picture.height, width, height).value;
              r.value.image == if fetch.picture.exifSwapsAxes then [1, s.width, s.height, 3] else [1, s.height, s.width, 3]
  {
    match fetch
    case FetchFailed(detail) => Failure(LoadFailed(detail))
    case Fetched(p) =>
      var s :- TargetSize(p.width, p.height, width, height);
      var rows := if p.exifSwapsAxes then s.width else s.height;
      var cols := if p.exifSwapsAxes then s.height else s.width;
      var image := [1, rows, cols, 3];
      Success(Output(image, [1, rows, cols], 1.0))
  }

  /** With both sides given and no orientation turn, the tensor is exactly
      `[1, height, width, 3]`, whatever the picture's own size. */
  lemma ExactSizeWhenBothGiven(width: nat, height: nat, p: Picture)
    requires width > 0 && height > 0 && !p.exifSwapsAxes
    ensures LoadImage(width, height, Fetched(p)) == Success(Output([1, height, width, 3], [1, height, width], 1.0))
  {
  }

  /** With neither side given, the picture keeps its size, turned if tagged so. */
  lemma OriginalSizeWhenNoneGiven(p: Picture)
    ensures var r := LoadImage(0, 0, Fetched(p));
            r.Success? && r.value.image ==
              if p.exifSwapsAxes then [1, p.width, p.height, 3] else [1, p.height, p.width, 3]
  {
  }
}
