/**
 * The compositor, `drawCanvas` (the second declaration in main.js, which
 * replaces the first one when the script is loaded).  It reads the editor
 * state and issues a fixed sequence of drawing calls onto the visible canvas
 * and two off-screen canvases; here that sequence is a list of abstract
 * drawing operations, and an interpreter of the list says what ends up on
 * the visible canvas.
 */
module Compositor {
  import opened Assets
  import opened Geometry

  /** The part of the editor state that `drawCanvas` reads. */
  datatype LayerState = LayerState(
    flag: Option<Raster>,
    upload: Option<Raster>,
    mask: Option<Raster>,
    template: Option<Raster>,
    eyes: Option<Raster>,
    eyeStyle: EyeStyle,
    adjustX: int,
    adjustY: int,
    adjustSize: int)

  /** The visible canvas and the two off-screen canvases of `drawCanvas`. */
  datatype Surface = Canvas | SourceLayer | MaskLayer

  datatype DrawOp =
    | Clear                                                  // clearRect over the canvas
    | DrawLetterbox(target: Surface, img: Raster, offsetX: int, offsetY: int, size: int)  // drawPreserveToCtx
    | DrawCover(target: Surface, img: Raster)                // drawImageCover
    | DrawFull(target: Surface, img: Raster)                 // drawImage(img, 0, 0, SIZE, SIZE)
    | MaskDestIn                                             // the mask canvas over the source canvas, 'destination-in'
    | BlitSource                                             // the source canvas onto the canvas at (0, 0)

  /** The surface an operation changes. */
  function Target(op: DrawOp): Surface
  {
    match op
    case Clear => Canvas
    case DrawLetterbox(t, _, _, _, _) => t
    case DrawCover(t, _) => t
    case DrawFull(t, _) => t
    case MaskDestIn => SourceLayer
    case BlitSource => Canvas
  }

  /** How the eyes are placed: pre-composed to the whole frame, or centred
      and moved by the adjust sliders. */
  datatype EyeMode = FullFrameEyes | Adjustable

  /** Only the first eye style is drawn over the whole frame. */
  function EyeModeOf(style: EyeStyle): EyeMode
  {
    if style == S1 then FullFrameEyes else Adjustable
  }

  /** The background step: at most one drawing, into the source layer,
      and one exactly when a flag or a photo is set. */
  function BackgroundOps(st: LayerState): (ops: seq<DrawOp>)
    ensures |ops| == Count(st.flag.Some? || st.upload.Some?)
    ensures forall i :: 0 <= i < |ops| ==> Target(ops[i]) == SourceLayer && ops[i] != MaskDestIn
  {
    match st.flag
    case Some(f) => [DrawLetterbox(SourceLayer, f, 0, 0, SizePx)]
    case None =>
      match st.upload
      case Some(u) => [DrawCover(SourceLayer, u)]
      case None => []
  }

  /** The mask step: nothing without a mask; with one, the mask drawn
      into its own layer and then cut out of the source layer. */
  function MaskOps(st: LayerState): (ops: seq<DrawOp>)
    ensures |ops| == 2 * Count(st.mask.Some?)
    ensures forall i :: 0 <= i < |ops| ==> Target(ops[i]) != Canvas
    ensures st.mask.Some? ==> Target(ops[0]) == MaskLayer && ops[1] == MaskDestIn
  {
    match st.mask
    case Some(m) => [DrawLetterbox(MaskLayer, m, 0, 0, SizePx), MaskDestIn]
    case None => []
  }

  /** The template step: one drawing onto the canvas exactly when a
      template is set. */
  function TemplateOps(st: LayerState): (ops: seq<DrawOp>)
    ensures |ops| == Count(st.template.Some?)
    ensures forall i :: 0 <= i < |ops| ==> Target(ops[i]) == Canvas && ops[i].DrawLetterbox?
  {
    match st.template
    case Some(t) => [DrawLetterbox(Canvas, t, 0, 0, SizePx)]
    case None => []
  }

  /** The eye step: one drawing onto the canvas exactly when eyes are
      set, over the whole frame exactly for the first style. */
  function EyeOps(st: LayerState): (ops: seq<DrawOp>)
    ensures |ops| == Count(st.eyes.Some?)
    ensures forall i :: 0 <= i < |ops| ==> Target(ops[i]) == Canvas && (ops[i].DrawFull? <==> st.eyeStyle == S1)
  {
    match st.eyes
    case Some(e) =>
      if EyeModeOf(st.eyeStyle) == FullFrameEyes then [DrawFull(Canvas, e)]
      else [DrawLetterbox(Canvas, e, st.adjustX, st.adjustY, st.adjustSize)]
    case None => []
  }

  /** `drawCanvas()`: clear; background into the source layer; cut it out
      with the mask; copy the source layer onto the canvas; template; eyes. */
  function DrawCanvas(st: LayerState): (ops: seq<DrawOp>)
    ensures 2 <= |ops| && ops[0] == Clear
    ensures BlitSource in ops
  {
    [Clear] + BackgroundOps(st) + MaskOps(st) + [BlitSource] + TemplateOps(st) + EyeOps(st)
  }

  function Count(b: bool): nat
  {
    if b then 1 else 0
  }

  // ---------------------------------------------------------------------
  // Properties of the operation list
  // ---------------------------------------------------------------------

  /** The canvas is cleared first and only then; the source layer is copied
      onto the canvas exactly once; everything before that copy works on
      the off-screen layers, everything after it on the canvas. */
  lemma LayerOrder(st: LayerState)
    ensures var ops := DrawCanvas(st);
      && |ops| == 2 + Count(st.flag.Some? || st.upload.Some?) + 2 * Count(st.mask.Some?)
                    + Count(st.template.Some?) + Count(st.eyes.Some?)
      && ops[0] == Clear
      && (forall i :: 0 < i < |ops| ==> ops[i] != Clear)
      && exists b :: 0 < b < |ops| && ops[b] == BlitSource
           && (forall i :: 0 <= i < |ops| && i != b ==> ops[i] != BlitSource)
           && (forall i :: 0 < i < b ==> Target(ops[i]) != Canvas)
           && (forall i :: b < i < |ops| ==> Target(ops[i]) == Canvas)
  {
    var pre := BackgroundOps(st) + MaskOps(st);
    var post := TemplateOps(st) + EyeOps(st);
    assert DrawCanvas(st) == [Clear] + pre + [BlitSource] + post;
    SegmentKinds(st);
    ClearThenBlit(pre, post);
  }

  /** Operations on the off-screen layers only. */
  ghost predicate OffScreen(ops: seq<DrawOp>)
  {
    forall i :: 0 <= i < |ops| ==> Target(ops[i]) != Canvas
  }

  /** Operations that draw onto the canvas without clearing it or copying
      the source layer. */
  ghost predicate Overlay(ops: seq<DrawOp>)
  {
    forall i :: 0 <= i < |ops| ==> Target(ops[i]) == Canvas && ops[i] != Clear && ops[i] != BlitSource
  }

  /** The background and the mask work off screen; the template and the
      eyes draw onto the canvas. */
  lemma SegmentKinds(st: LayerState)
    ensures OffScreen(BackgroundOps(st) + MaskOps(st))
    ensures Overlay(TemplateOps(st) + EyeOps(st))
  {
  }

  /** A clear, off-screen work, one copy of the source layer, then canvas
      drawing: the order `LayerOrder` states. */
  lemma ClearThenBlit(pre: seq<DrawOp>, post: seq<DrawOp>)
    requires OffScreen(pre) && Overlay(post)
    ensures var ops := [Clear] + pre + [BlitSource] + post;
      && ops[0] == Clear
      && (forall i :: 0 < i < |ops| ==> ops[i] != Clear)
      && var b := |pre| + 1;
         && ops[b] == BlitSource
         && (forall i :: 0 <= i < |ops| && i != b ==> ops[i] != BlitSource)
         && (forall i :: 0 < i < b ==> Target(ops[i]) != Canvas)
         && (forall i :: b < i < |ops| ==> Target(ops[i]) == Canvas)
  {
    var ops := [Clear] + pre + [BlitSource] + post;
    var b := |pre| + 1;
    forall i | 0 < i < b
      ensures ops[i] == pre[i - 1]
    {
    }
    forall i | b < i < |ops|
      ensures ops[i] == post[i - b - 1]
    {
    }
  }

  /** The background: a set flag is letterboxed into the source layer even
      when a photo is uploaded too; otherwise an uploaded photo is
      cover-cropped; otherwise the source layer stays empty. */
  lemma BackgroundChoice(st: LayerState)
    ensures var ops := DrawCanvas(st);
      && ((exists i :: 0 <= i < |ops| && Target(ops[i]) == SourceLayer && ops[i] != MaskDestIn)
          <==> st.flag.Some? || st.upload.Some?)
      && (st.flag.Some? ==>
            ops[1] == DrawLetterbox(SourceLayer, st.flag.value, 0, 0, SizePx)
            && forall i :: 0 <= i < |ops| ==> !ops[i].DrawCover?)
      && (st.flag.None? && st.upload.Some? ==>
            ops[1] == DrawCover(SourceLayer, st.upload.value))
  {
    SourceDrawn(st);
    if st.flag.Some? {
      NoCoverUnderFlag(st);
    }
  }

  /** Something other than the cutout reaches the source layer exactly when
      a flag or a photo is set. */
  lemma SourceDrawn(st: LayerState)
    ensures var ops := DrawCanvas(st);
      (exists i :: 0 <= i < |ops| && Target(ops[i]) == SourceLayer && ops[i] != MaskDestIn)
      <==> st.flag.Some? || st.upload.Some?
  {
    var ops := DrawCanvas(st);
    var rest := MaskOps(st) + [BlitSource] + TemplateOps(st) + EyeOps(st);
    assert ops == [Clear] + BackgroundOps(st) + rest;
    if st.flag.Some? || st.upload.Some? {
      assert Target(ops[1]) == SourceLayer && ops[1] != MaskDestIn;
    } else {
      assert ops == [Clear] + rest;
      forall i | 0 <= i < |ops| ensures !(Target(ops[i]) == SourceLayer && ops[i] != MaskDestIn) {
        if i > 0 { assert ops[i] == rest[i - 1]; }
      }
    }
  }

  /** A set flag is the whole background: no cover crop is drawn. */
  lemma NoCoverUnderFlag(st: LayerState)
    requires st.flag.Some?
    ensures var ops := DrawCanvas(st);
      && ops[1] == DrawLetterbox(SourceLayer, st.flag.value, 0, 0, SizePx)
      && forall i :: 0 <= i < |ops| ==> !ops[i].DrawCover?
  {
    var ops := DrawCanvas(st);
    var rest := MaskOps(st) + [BlitSource] + TemplateOps(st) + EyeOps(st);
    assert ops == [Clear] + BackgroundOps(st) + rest;
    forall i | 0 <= i < |ops| ensures !ops[i].DrawCover? {
      if i > 1 { assert ops[i] == rest[i - 2]; }
    }
  }

  /** The cutout happens exactly when a mask is loaded: the mask is first
      letterboxed into its own layer, then applied to the background, and
      both happen before the source layer reaches the canvas. */
  lemma MaskStep(st: LayerState)
    ensures var ops := DrawCanvas(st);
      && ((exists i :: 0 <= i < |ops| && ops[i].MaskDestIn?) <==> st.mask.Some?)
      && (st.mask.Some? ==>
            var k := 1 + Count(st.flag.Some? || st.upload.Some?);
            && ops[k] == DrawLetterbox(MaskLayer, st.mask.value, 0, 0, SizePx)
            && ops[k + 1] == MaskDestIn
            && ops[k + 2] == BlitSource)
  {
    var ops := DrawCanvas(st);
    var rest := [BlitSource] + TemplateOps(st) + EyeOps(st);
    assert ops == [Clear] + BackgroundOps(st) + MaskOps(st) + rest;
    assert forall i :: 0 <= i < |rest| ==> !rest[i].MaskDestIn?;
    assert forall i :: 0 <= i < |BackgroundOps(st)| ==> !BackgroundOps(st)[i].MaskDestIn?;
    if st.mask.Some? {
      var k := 1 + |BackgroundOps(st)|;
      assert ops[k + 1].MaskDestIn?;
    } else {
      assert ops == [Clear] + BackgroundOps(st) + rest;
    }
  }

  /** Right after the source layer reaches the canvas comes the template,
      letterboxed to the whole frame, when one is loaded; after that only
      the eyes can follow. */
  lemma TemplateStep(st: LayerState)
    ensures var ops := DrawCanvas(st);
      var b := 1 + Count(st.flag.Some? || st.upload.Some?) + 2 * Count(st.mask.Some?);
      && |ops| == b + 1 + Count(st.template.Some?) + Count(st.eyes.Some?)
      && ops[b] == BlitSource
      && (st.template.Some? ==>
            ops[b + 1] == DrawLetterbox(Canvas, st.template.value, 0, 0, SizePx))
  {
    var ops := DrawCanvas(st);
    var front := [Clear] + BackgroundOps(st) + MaskOps(st);
    assert ops == front + [BlitSource] + TemplateOps(st) + EyeOps(st);
    assert ops[|front|] == BlitSource;
    if st.template.Some? {
      assert ops[|front| + 1] == TemplateOps(st)[0];
    }
  }

  /** The eyes come last, and only when loaded: over the whole frame for
      the first style, otherwise letterboxed with the adjust offsets and
      size. */
  lemma EyesLast(st: LayerState)
    ensures var ops := DrawCanvas(st);
      && (st.eyes.Some? && st.eyeStyle == S1 ==> ops[|ops| - 1] == DrawFull(Canvas, st.eyes.value))
      && (st.eyes.Some? && st.eyeStyle != S1 ==>
            ops[|ops| - 1] == DrawLetterbox(Canvas, st.eyes.value, st.adjustX, st.adjustY, st.adjustSize))
      && ((exists i :: 0 <= i < |ops| && ops[i].DrawFull?) <==> st.eyes.Some? && st.eyeStyle == S1)
      && (st.eyes.None? ==>
            ops[|ops| - 1] == BlitSource
            || (st.template.Some? && ops[|ops| - 1] == DrawLetterbox(Canvas, st.template.value, 0, 0, SizePx)))
  {
    var ops := DrawCanvas(st);
    var front := [Clear] + BackgroundOps(st) + MaskOps(st) + [BlitSource] + TemplateOps(st);
    assert ops == front + EyeOps(st);
    assert forall i :: 0 <= i < |front| ==> !front[i].DrawFull?;
    if st.eyes.None? {
      assert ops == front;
    } else {
      assert ops[|ops| - 1] == EyeOps(st)[0];
    }
  }

  /** In full-frame mode the adjust sliders have no effect on the picture. */
  lemma FullFrameIgnoresAdjust(st: LayerState, x: int, y: int, size: int)
    requires st.eyeStyle == S1
    ensures DrawCanvas(st) == DrawCanvas(st.(adjustX := x, adjustY := y, adjustSize := size))
  {
  }

  /** The background depends on the flag and the photo only. */
  lemma BackgroundIgnoresEyes(st: LayerState, eyes: Option<Raster>)
    ensures BackgroundOps(st.(eyes := eyes)) == BackgroundOps(st)
  {
  }

  /** While a flag is set the uploaded photo does not show at all. */
  lemma FlagHidesUpload(st: LayerState, other: Option<Raster>)
    requires st.flag.Some?
    ensures DrawCanvas(st) == DrawCanvas(st.(upload := other))
  {
  }

  // ---------------------------------------------------------------------
  // What the operations paint
  // ---------------------------------------------------------------------

  /** What a surface holds, bottom to top. */
  datatype Paint =
    | Image(img: Raster, src: Rect, dst: Rect)       // part `src` of an image, drawn onto `dst`
    | Cutout(content: seq<Paint>, mask: seq<Paint>)  // `content` kept only where `mask` is opaque
    | Layer(content: seq<Paint>)                     // an off-screen canvas copied at (0, 0)

  datatype Surfaces = Surfaces(canvas: seq<Paint>, source: seq<Paint>, mask: seq<Paint>)

  /** The whole of an image, as a source rectangle. */
  function Whole(img: Raster): Rect
  {
    Rect(0.0, 0.0, img.width as real, img.height as real)
  }

  function Put(s: Surfaces, t: Surface, p: Paint): Surfaces
  {
    match t
    case Canvas => s.(canvas := s.canvas + [p])
    case SourceLayer => s.(source := s.source + [p])
    case MaskLayer => s.(mask := s.mask + [p])
  }

  function Step(s: Surfaces, op: DrawOp): Surfaces
  {
    match op
    case Clear => s.(canvas := [])
    case DrawLetterbox(t, img, x, y, size) => Put(s, t, Image(img, Whole(img), Letterbox(img, x, y, size)))
    case DrawCover(t, img) => Put(s, t, Image(img, Cover(img).src, Cover(img).dst))
    case DrawFull(t, img) => Put(s, t, Image(img, Whole(img), FullFrame))
    case MaskDestIn => s.(source := [Cutout(s.source, s.mask)])
    case BlitSource => s.(canvas := s.canvas + [Layer(s.source)])
  }

  function Execute(ops: seq<DrawOp>, s: Surfaces): Surfaces
    decreases |ops|
  {
    if ops == [] then s else Execute(ops[1..], Step(s, ops[0]))
  }

  lemma {:induction false} ExecuteAppend(a: seq<DrawOp>, b: seq<DrawOp>, s: Surfaces)
    ensures Execute(a + b, s) == Execute(b, Execute(a, s))
    decreases |a|
  {
    if a != [] {
      assert (a + b)[1..] == a[1..] + b;
      ExecuteAppend(a[1..], b, Step(s, a[0]));
    } else {
      assert a + b == b;
    }
  }

  /** The visible canvas after `drawCanvas`, given what it showed before;
      the two off-screen canvases are created empty by each call. */
  function Picture(st: LayerState, previous: seq<Paint>): seq<Paint>
  {
    Execute(DrawCanvas(st), Surfaces(previous, [], [])).canvas
  }

  /** What the background step leaves in the source layer. */
  function BackgroundPaint(st: LayerState): seq<Paint>
  {
    if st.flag.Some? then [Image(st.flag.value, Whole(st.flag.value), Letterbox(st.flag.value, 0, 0, SizePx))]
    else if st.upload.Some? then [Image(st.upload.value, Cover(st.upload.value).src, FullFrame)]
    else []
  }

  /** What the source layer holds when it is copied to the canvas. */
  function SourcePaint(st: LayerState): seq<Paint>
  {
    if st.mask.Some? then
      [Cutout(BackgroundPaint(st), [Image(st.mask.value, Whole(st.mask.value), Letterbox(st.mask.value, 0, 0, SizePx))])]
    else BackgroundPaint(st)
  }

  function TemplatePaint(st: LayerState): seq<Paint>
  {
    if st.template.Some? then [Image(st.template.value, Whole(st.template.value), Letterbox(st.template.value, 0, 0, SizePx))]
    else []
  }

  function EyePaint(st: LayerState): seq<Paint>
  {
    if st.eyes.None? then []
    else if st.eyeStyle == S1 then [Image(st.eyes.value, Whole(st.eyes.value), FullFrame)]
    else [Image(st.eyes.value, Whole(st.eyes.value), Letterbox(st.eyes.value, st.adjustX, st.adjustY, st.adjustSize))]
  }

  lemma BackgroundOpsPaint(st: LayerState, s: Surfaces)
    requires s.source == [] && s.mask == []
    ensures Execute(BackgroundOps(st), s) == s.(source := BackgroundPaint(st))
  {
  }

  lemma MaskOpsPaint(st: LayerState, s: Surfaces)
    requires s.source == BackgroundPaint(st) && s.mask == []
    ensures Execute(MaskOps(st), s).canvas == s.canvas
    ensures Execute(MaskOps(st), s).source == SourcePaint(st)
  {
    if st.mask.Some? {
      var m := st.mask.value;
      var ops := MaskOps(st);
      var s1 := Step(s, ops[0]);
      assert s1 == s.(mask := [Image(m, Whole(m), Letterbox(m, 0, 0, SizePx))]);
      var s2 := Step(s1, ops[1]);
      assert ops[1..][1..] == [];
      assert Execute(ops, s) == Execute(ops[1..], s1) == Execute(ops[1..][1..], s2) == s2;
    }
  }

  lemma OverlayOpsPaint(st: LayerState, s: Surfaces)
    ensures Execute(TemplateOps(st) + EyeOps(st), s).canvas == s.canvas + TemplatePaint(st) + EyePaint(st)
  {
    ExecuteAppend(TemplateOps(st), EyeOps(st), s);
  }

  /** The picture, bottom to top: the source layer (the background, cut
      out by the mask when there is one), then the template, then the eyes.
      What the canvas showed before does not matter. */
  lemma PictureStack(st: LayerState, previous: seq<Paint>)
    ensures Picture(st, previous) == [Layer(SourcePaint(st))] + TemplatePaint(st) + EyePaint(st)
  {
    var s0 := Surfaces(previous, [], []);
    var s1 := Step(s0, Clear);
    var a := [Clear] + BackgroundOps(st);
    var b := a + MaskOps(st);
    var c := b + [BlitSource];
    assert DrawCanvas(st) == c + (TemplateOps(st) + EyeOps(st));
    ExecuteAppend([Clear], BackgroundOps(st), s0);
    BackgroundOpsPaint(st, s1);
    var s2 := Execute(a, s0);
    assert s2 == Surfaces([], BackgroundPaint(st), []);
    ExecuteAppend(a, MaskOps(st), s0);
    MaskOpsPaint(st, s2);
    var s3 := Execute(b, s0);
    ExecuteAppend(b, [BlitSource], s0);
    var s4 := Execute(c, s0);
    assert s4.canvas == [Layer(SourcePaint(st))];
    ExecuteAppend(c, TemplateOps(st) + EyeOps(st), s0);
    OverlayOpsPaint(st, s4);
  }

  /** Redrawing replaces the picture: drawing twice shows what drawing once
      shows. */
  lemma RedrawIdempotent(st: LayerState, previous: seq<Paint>)
    ensures Picture(st, Picture(st, previous)) == Picture(st, previous)
    ensures Picture(st, previous) == Picture(st, [])
  {
    PictureStack(st, previous);
    PictureStack(st, []);
    PictureStack(st, Picture(st, previous));
  }

  // ---------------------------------------------------------------------
  // The cutout on one pixel
  // ---------------------------------------------------------------------

  /** A pixel with premultiplied colour components. */
  datatype Pixel = Pixel(r: real, g: real, b: real, a: real)

  const Transparent: Pixel := Pixel(0.0, 0.0, 0.0, 0.0)

  /** The 'destination-in' operator: the mask `src` drawn over the
      background `dst` keeps the background, weighted by the mask's alpha;
      the mask's colour plays no part.  Where the mask is transparent
      nothing is left, where it is opaque the background is kept as is. */
  function DestinationIn(dst: Pixel, src: Pixel): (o: Pixel)
    ensures src.a == 0.0 ==> o == Transparent
    ensures src.a == 1.0 ==> o == dst
  {
    Pixel(dst.r * src.a, dst.g * src.a, dst.b * src.a, dst.a * src.a)
  }

  /** Only the mask's alpha decides the result. */
  lemma DestinationInIgnoresMaskColour(dst: Pixel, m1: Pixel, m2: Pixel)
    requires m1.a == m2.a
    ensures DestinationIn(dst, m1) == DestinationIn(dst, m2)
  {
  }
}
