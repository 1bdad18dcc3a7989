/**
 * The two ways the editor places an image on its square canvas, as the
 * rectangles handed to `drawImage`: the letterbox fit of
 * `drawPreserveToCtx` and the centre-crop cover of `drawImageCover`.
 * Arithmetic is exact (`real`), where the browser uses doubles.
 */
module Geometry {
  import opened Assets

  /** The side of the square canvas, `SIZE`, in pixels. */
  const SizePx: int := 400

  const SIZE: real := SizePx as real

  datatype Rect = Rect(x: real, y: real, w: real, h: real)

  /** The whole canvas, `0, 0, SIZE, SIZE`. */
  const FullFrame: Rect := Rect(0.0, 0.0, SIZE, SIZE)

  /** `drawPreserveToCtx(ctx, img, offsetX, offsetY, customSize)`: the
      destination rectangle.  The image keeps its aspect ratio, its longer
      side becomes `customSize`, and it is centred on the canvas centre
      moved by the offsets. */
  function Letterbox(img: Raster, offsetX: int, offsetY: int, customSize: int): (r: Rect)
    ensures r.w * (img.height as real) == r.h * (img.width as real)
    ensures img.width > img.height ==> r.w == customSize as real
    ensures img.width <= img.height ==> r.h == customSize as real
    ensures r.x + r.w / 2.0 == SIZE / 2.0 + offsetX as real
    ensures r.y + r.h / 2.0 == SIZE / 2.0 + offsetY as real
    ensures customSize >= 0 ==> 0.0 <= r.w <= customSize as real && 0.0 <= r.h <= customSize as real
  {
    var iw, ih := img.width as real, img.height as real;
    var hw := iw / ih;
    var c := customSize as real;
    Ratio(iw, ih);
    if hw > 1.0 then
      WideSides(c, hw, iw, ih);
      Rect((SIZE - c) / 2.0 + offsetX as real, (SIZE - c / hw) / 2.0 + offsetY as real, c, c / hw)
    else
      TallSides(c, hw, iw, ih);
      Rect((SIZE - c * hw) / 2.0 + offsetX as real, (SIZE - c) / 2.0 + offsetY as real, c * hw, c)
  }

  /** The aspect ratio `hw` of an image is above one exactly for a wide
      image. */
  lemma Ratio(iw: real, ih: real)
    requires iw > 0.0 && ih > 0.0
    ensures (iw / ih) * ih == iw && iw / ih > 0.0
    ensures iw / ih > 1.0 <==> iw > ih
  {
    var hw := iw / ih;
    assert hw * ih == iw;
    if hw > 1.0 {
      assert hw * ih > 1.0 * ih;
    } else {
      assert hw * ih <= 1.0 * ih;
    }
  }

  /** A wide image: width `c`, height `c / hw`. */
  lemma WideSides(c: real, hw: real, iw: real, ih: real)
    requires hw * ih == iw && hw > 1.0 && ih > 0.0
    ensures c * ih == (c / hw) * iw
    ensures c >= 0.0 ==> 0.0 <= c / hw <= c
  {
    assert (c / hw) * hw == c;
    assert (c / hw) * iw == (c / hw) * hw * ih;
  }

  /** A tall or square image: width `c * hw`, height `c`. */
  lemma TallSides(c: real, hw: real, iw: real, ih: real)
    requires hw * ih == iw && 0.0 < hw <= 1.0
    ensures (c * hw) * ih == c * iw
    ensures c >= 0.0 ==> 0.0 <= c * hw <= c
  {
    assert (c * hw) * ih == c * (hw * ih);
    if c >= 0.0 {
      assert c * hw <= c * 1.0;
    }
  }

  /** With no offset and the full canvas as target size (the flag, mask and
      template layers), the image lies inside the canvas and spans it along
      its longer side. */
  lemma LetterboxFitsFrame(img: Raster)
    ensures var r := Letterbox(img, 0, 0, SizePx);
      && 0.0 <= r.x && r.x + r.w <= SIZE
      && 0.0 <= r.y && r.y + r.h <= SIZE
      && ((r.x == 0.0 && r.w == SIZE) || (r.y == 0.0 && r.h == SIZE))
  {
  }

  /** The source crop and destination of `drawImageCover`. */
  datatype CoverFit = CoverFit(src: Rect, dst: Rect)

  /** `drawImageCover(ctx, img)`: the largest centred square of the image,
      scaled onto the whole canvas. */
  function Cover(img: Raster): (r: CoverFit)
    ensures var side := if img.width <= img.height then img.width else img.height;
      r.src.w == r.src.h == side as real
    ensures 0.0 <= r.src.x && r.src.x + r.src.w <= img.width as real
    ensures 0.0 <= r.src.y && r.src.y + r.src.h <= img.height as real
    ensures r.src.x == 0.0 || r.src.y == 0.0
    ensures r.src.x + r.src.w / 2.0 == (img.width as real) / 2.0
    ensures r.src.y + r.src.h / 2.0 == (img.height as real) / 2.0
    ensures r.dst == FullFrame
  {
    var iw, ih := img.width as real, img.height as real;
    var size := if iw <= ih then iw else ih;
    CoverFit(Rect((iw - size) / 2.0, (ih - size) / 2.0, size, size), Rect(0.0, 0.0, SIZE, SIZE))
  }
}
