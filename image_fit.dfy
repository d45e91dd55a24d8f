/**
 * The image-fit calculation of the meme generator: given the size of the
 * canvas and the size of a newly loaded image, compute the rectangle in which
 * the image is drawn so that it keeps its aspect ratio, fills one axis of the
 * canvas and is centred along the other.
 *
 * Numbers are modelled as mathematical reals, an idealisation of JavaScript
 * doubles without rounding.
 */
module ImageFit {

  /** The scaled image rectangle and its top-left corner inside the canvas. */
  datatype Placement = Placement(width: real, height: real, startX: real, startY: real)

  /** The image is portrait: the test `aspectRatio < 1`, without division. */
  predicate IsPortrait(imageWidth: real, imageHeight: real) {
    imageWidth < imageHeight
  }

  /** The image's width over its height. */
  function AspectRatio(imageWidth: real, imageHeight: real): (ratio: real)
    requires imageHeight > 0.0
    ensures ratio * imageHeight == imageWidth
    ensures ratio < 1.0 <==> IsPortrait(imageWidth, imageHeight)
    ensures imageWidth > 0.0 ==> ratio > 0.0
  {
    imageWidth / imageHeight
  }

  /**
   * The placement of an image of size imageWidth x imageHeight on a canvas
   * of size canvasWidth x canvasHeight. A portrait image fills the canvas
   * height and is centred horizontally; every other image, a square one
   * included, fills the canvas width and is centred vertically.
   */
  function GetDimensions(canvasWidth: real, canvasHeight: real, imageWidth: real, imageHeight: real): (p: Placement)
    requires imageHeight > 0.0
    // the filled axis, anchored at the canvas edge
    ensures IsPortrait(imageWidth, imageHeight) ==> p.height == canvasHeight && p.startY == 0.0
    ensures !IsPortrait(imageWidth, imageHeight) ==> p.width == canvasWidth && p.startX == 0.0
    // centred on both axes
    ensures 2.0 * p.startX + p.width == canvasWidth
    ensures 2.0 * p.startY + p.height == canvasHeight
    // aspect ratio preserved
    ensures p.width * imageHeight == p.height * imageWidth
  {
    var aspectRatio := AspectRatio(imageWidth, imageHeight);
    if aspectRatio < 1.0 then
      var height := canvasHeight;
      var width := canvasHeight * aspectRatio;
      Placement(width, height, (canvasWidth - width) / 2.0, 0.0)
    else
      var width := canvasWidth;
      var height := canvasWidth / aspectRatio;
      Placement(width, height, 0.0, (canvasHeight - height) / 2.0)
  }

  /** The placement lies entirely inside the canvas. */
  ghost predicate FitsCanvas(p: Placement, canvasWidth: real, canvasHeight: real) {
    && 0.0 <= p.startX && p.startX + p.width <= canvasWidth
    && 0.0 <= p.startY && p.startY + p.height <= canvasHeight
  }

  /**
   * An independent description of the placement: the filled axis chosen by
   * the portrait test, the aspect ratio kept and both axes centred.
   */
  ghost predicate IsCentredFill(canvasWidth: real, canvasHeight: real, imageWidth: real, imageHeight: real, p: Placement)
  {
    && (if IsPortrait(imageWidth, imageHeight) then p.height == canvasHeight else p.width == canvasWidth)
    && p.width * imageHeight == p.height * imageWidth
    && 2.0 * p.startX + p.width == canvasWidth
    && 2.0 * p.startY + p.height == canvasHeight
  }

  /** The filled axis, the kept ratio and the centring determine the placement. */
  lemma CentredFillIsGetDimensions(canvasWidth: real, canvasHeight: real, imageWidth: real, imageHeight: real, p: Placement)
    requires imageHeight > 0.0
    ensures IsCentredFill(canvasWidth, canvasHeight, imageWidth, imageHeight, p)
        <==> p == GetDimensions(canvasWidth, canvasHeight, imageWidth, imageHeight)
  {
    var q := GetDimensions(canvasWidth, canvasHeight, imageWidth, imageHeight);
    if IsCentredFill(canvasWidth, canvasHeight, imageWidth, imageHeight, p) {
      if IsPortrait(imageWidth, imageHeight) {
        assert p.height == q.height;
        assert p.width * imageHeight == q.width * imageHeight;
        RealCancel(p.width, q.width, imageHeight);
      } else {
        assert imageWidth > 0.0;
        assert p.width == q.width;
        assert p.height * imageWidth == q.height * imageWidth;
        RealCancel(p.height, q.height, imageWidth);
      }
    }
  }

  /** Multiplication by a non-zero factor is injective. */
  lemma RealCancel(a: real, b: real, k: real)
    requires k != 0.0 && a * k == b * k
    ensures a == b
  {
    assert (a - b) * k == 0.0;
  }

  /** At least one axis of the canvas is filled by the image. */
  lemma OneAxisFilled(canvasWidth: real, canvasHeight: real, imageWidth: real, imageHeight: real)
    requires imageHeight > 0.0
    ensures var p := GetDimensions(canvasWidth, canvasHeight, imageWidth, imageHeight);
      p.width == canvasWidth || p.height == canvasHeight
  {
  }

  /** A square image takes the non-portrait branch and becomes a canvasWidth square. */
  lemma SquareImage(canvasWidth: real, canvasHeight: real, side: real)
    requires side > 0.0
    ensures GetDimensions(canvasWidth, canvasHeight, side, side)
      == Placement(canvasWidth, canvasWidth, 0.0, (canvasHeight - canvasWidth) / 2.0)
  {
  }

  /** With a positive canvas and a positive image, the drawn image has positive size. */
  lemma PositiveSize(canvasWidth: real, canvasHeight: real, imageWidth: real, imageHeight: real)
    requires canvasWidth > 0.0 && canvasHeight > 0.0
    requires imageWidth > 0.0 && imageHeight > 0.0
    ensures var p := GetDimensions(canvasWidth, canvasHeight, imageWidth, imageHeight);
      p.width > 0.0 && p.height > 0.0
  {
    var p := GetDimensions(canvasWidth, canvasHeight, imageWidth, imageHeight);
    if IsPortrait(imageWidth, imageHeight) {
      PositiveFactor(p.width, canvasHeight, imageHeight, imageWidth);
    } else {
      PositiveFactor(p.height, canvasWidth, imageWidth, imageHeight);
    }
  }

  /** If x * b == a * c with a, b, c positive, then x is positive. */
  lemma PositiveFactor(x: real, a: real, b: real, c: real)
    requires a > 0.0 && b > 0.0 && c > 0.0 && x * b == a * c
    ensures x > 0.0
  {
    assert a * c > 0.0;
  }

  /**
   * The placement fits the canvas exactly when the image is no wider than
   * the canvas in the portrait branch, and no taller in the other one,
   * both compared by cross-multiplied aspect ratios.
   */
  lemma FitsCanvasIff(canvasWidth: real, canvasHeight: real, imageWidth: real, imageHeight: real)
    requires imageWidth > 0.0 && imageHeight > 0.0
    ensures FitsCanvas(GetDimensions(canvasWidth, canvasHeight, imageWidth, imageHeight), canvasWidth, canvasHeight)
        <==> if IsPortrait(imageWidth, imageHeight)
             then canvasHeight * imageWidth <= canvasWidth * imageHeight
             else canvasWidth * imageHeight <= canvasHeight * imageWidth
  {
    var p := GetDimensions(canvasWidth, canvasHeight, imageWidth, imageHeight);
    if IsPortrait(imageWidth, imageHeight) {
      // the placement fits exactly when its width does not exceed the canvas width
      assert FitsCanvas(p, canvasWidth, canvasHeight) <==> p.width <= canvasWidth;
      ScaleLe(p.width, canvasWidth, imageHeight);
    } else {
      assert FitsCanvas(p, canvasWidth, canvasHeight) <==> p.height <= canvasHeight;
      ScaleLe(p.height, canvasHeight, imageWidth);
    }
  }

  /** The drawing is the image scaled by the same factor s on both axes. */
  ghost predicate IsUniformScaling(p: Placement, imageWidth: real, imageHeight: real, s: real) {
    s > 0.0 && p.width == s * imageWidth && p.height == s * imageHeight
  }

  /** The image is never stretched: both axes are scaled by one positive factor. */
  lemma UniformScaling(canvasWidth: real, canvasHeight: real, imageWidth: real, imageHeight: real)
    requires canvasWidth > 0.0 && canvasHeight > 0.0
    requires imageWidth > 0.0 && imageHeight > 0.0
    ensures exists s :: IsUniformScaling(GetDimensions(canvasWidth, canvasHeight, imageWidth, imageHeight), imageWidth, imageHeight, s)
  {
    var p := GetDimensions(canvasWidth, canvasHeight, imageWidth, imageHeight);
    PositiveSize(canvasWidth, canvasHeight, imageWidth, imageHeight);
    var s := p.height / imageHeight;
    assert p.width == s * imageWidth by {
      RealCancel(p.width, s * imageWidth, imageHeight);
    }
    assert IsUniformScaling(p, imageWidth, imageHeight, s);
  }

  /**
   * On a square canvas no larger uniformly scaled copy of the image fits:
   * the placement is the biggest one that does.
   */
  lemma LargestFitOnSquareCanvas(side: real, imageWidth: real, imageHeight: real, s: real)
    requires side > 0.0 && imageWidth > 0.0 && imageHeight > 0.0 && s > 0.0
    requires s * imageWidth <= side && s * imageHeight <= side
    ensures var p := GetDimensions(side, side, imageWidth, imageHeight);
      s * imageWidth <= p.width && s * imageHeight <= p.height
  {
    var p := GetDimensions(side, side, imageWidth, imageHeight);
    if IsPortrait(imageWidth, imageHeight) {
      // p.height == side, and p.width is the side scaled by the aspect ratio
      ScaleLe(s * imageWidth, p.width, imageHeight);
    } else {
      ScaleLe(s * imageHeight, p.height, imageWidth);
    }
  }

  /** The image scaled by s fits a canvasWidth x canvasHeight canvas. */
  ghost predicate ScaledCopyFits(canvasWidth: real, canvasHeight: real, imageWidth: real, imageHeight: real, s: real) {
    s > 0.0 && s * imageWidth <= canvasWidth && s * imageHeight <= canvasHeight
  }

  /**
   * On a square canvas the drawing is the best fit: the image scaled by one
   * factor, inside the canvas, and no scaled copy that fits is larger.
   */
  lemma BestFitOnSquareCanvas(side: real, imageWidth: real, imageHeight: real)
    requires side > 0.0 && imageWidth > 0.0 && imageHeight > 0.0
    ensures var p := GetDimensions(side, side, imageWidth, imageHeight);
      && FitsCanvas(p, side, side)
      && exists t :: IsUniformScaling(p, imageWidth, imageHeight, t)
           && forall s :: ScaledCopyFits(side, side, imageWidth, imageHeight, s) ==> s <= t
  {
    var p := GetDimensions(side, side, imageWidth, imageHeight);
    FitsSquareCanvas(side, imageWidth, imageHeight);
    UniformScaling(side, side, imageWidth, imageHeight);
    var t :| IsUniformScaling(p, imageWidth, imageHeight, t);
    forall s | ScaledCopyFits(side, side, imageWidth, imageHeight, s)
      ensures s <= t
    {
      LargestFitOnSquareCanvas(side, imageWidth, imageHeight, s);
      ScaleLe(s, t, imageWidth);
    }
  }

  /** Multiplying both sides by a positive factor keeps the order. */
  lemma ScaleLe(a: real, b: real, k: real)
    requires k > 0.0
    ensures a <= b <==> a * k <= b * k
  {
    assert (b - a) * k == b * k - a * k;
    if a <= b {
      assert (b - a) * k >= 0.0;
    } else {
      assert (a - b) * k > 0.0;
    }
  }

  /** On a square canvas every positive image fits, as the doc comment promises. */
  lemma FitsSquareCanvas(side: real, imageWidth: real, imageHeight: real)
    requires side > 0.0 && imageWidth > 0.0 && imageHeight > 0.0
    ensures FitsCanvas(GetDimensions(side, side, imageWidth, imageHeight), side, side)
  {
    FitsCanvasIff(side, side, imageWidth, imageHeight);
    if IsPortrait(imageWidth, imageHeight) {
      ScaleLe(imageWidth, imageHeight, side);
    } else {
      ScaleLe(imageHeight, imageWidth, side);
    }
  }

  /**
   * On a canvas that is not square the fit is not guaranteed: a 100 x 1000
   * canvas and a 9 x 10 portrait image give a 900 pixel wide drawing that
   * starts 400 pixels left of the canvas.
   */
  lemma TallCanvasOverflows()
    ensures GetDimensions(100.0, 1000.0, 9.0, 10.0) == Placement(900.0, 1000.0, -400.0, 0.0)
    ensures !FitsCanvas(GetDimensions(100.0, 1000.0, 9.0, 10.0), 100.0, 1000.0)
  {
  }

  /** Positive sides alone do not make the image fit: some canvas and image overflow. */
  lemma FitNotGuaranteed()
    ensures exists canvasWidth: real, canvasHeight: real, imageWidth: real, imageHeight: real ::
      && canvasWidth > 0.0 && canvasHeight > 0.0 && imageWidth > 0.0 && imageHeight > 0.0
      && !FitsCanvas(GetDimensions(canvasWidth, canvasHeight, imageWidth, imageHeight), canvasWidth, canvasHeight)
  {
    TallCanvasOverflows();
  }

  /** A square image on a square canvas of the same size is drawn unchanged. */
  lemma ExampleSquare()
    ensures GetDimensions(500.0, 500.0, 500.0, 500.0) == Placement(500.0, 500.0, 0.0, 0.0)
  {
  }

  /** A 2:1 landscape image fills the width and is centred vertically. */
  lemma ExampleLandscape()
    ensures GetDimensions(500.0, 500.0, 1000.0, 500.0) == Placement(500.0, 250.0, 0.0, 125.0)
  {
  }

  /** A 1:2 portrait image fills the height and is centred horizontally. */
  lemma ExamplePortrait()
    ensures GetDimensions(500.0, 500.0, 500.0, 1000.0) == Placement(250.0, 500.0, 125.0, 0.0)
  {
  }
}
