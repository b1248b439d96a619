// The single-channel redaction mask: a rows x cols image whose pixels are 0
// except those some filled ellipse has set to 255.

module Masking {
  import opened Geometry

  /** A pixel as (x, y) = (column, row). */
  type Pixel = (int, int)

  /** An 8-bit single-channel image; `painted` holds the pixels whose value is 255. */
  datatype Mask = Mask(rows: int, cols: int, painted: set<Pixel>)

  /** The rasteriser of `Imgproc.ellipse` is an external capability: it gives the
      pixels a filled ellipse covers, before clipping to the image. */
  type Rasterizer = Ellipse -> set<Pixel>

  predicate InBounds(m: Mask, p: Pixel) {
    0 <= p.0 < m.cols && 0 <= p.1 < m.rows
  }

  /** `Mat.zeros(rows, cols, CV_8UC1)`. */
  function Zeros(rows: int, cols: int): Mask {
    Mask(rows, cols, {})
  }

  /** The pixels that painting the ellipse of `r` sets in a mask of `m`'s size. */
  function Footprint(raster: Rasterizer, m: Mask, r: PixelRect): set<Pixel> {
    set p | p in raster(MaskEllipse(r)) && InBounds(m, p)
  }

  /** `addMask`: one filled ellipse at full intensity, drawn inside the image. */
  function Paint(raster: Rasterizer, m: Mask, r: PixelRect): (m': Mask)
    ensures m'.rows == m.rows && m'.cols == m.cols
    ensures m.painted <= m'.painted
    ensures forall p :: p in m'.painted && p !in m.painted ==> InBounds(m, p) && p in raster(MaskEllipse(r))
  {
    m.(painted := m.painted + Footprint(raster, m, r))
  }

  /** Paints the rectangles of `rs` one after another, in order. */
  function PaintAll(raster: Rasterizer, m: Mask, rs: seq<PixelRect>): Mask
  {
    if rs == [] then m else Paint(raster, PaintAll(raster, m, rs[..|rs| - 1]), rs[|rs| - 1])
  }

  /** Painting keeps the size, never clears a pixel, and sets exactly the pixels
      some rectangle's ellipse covers. */
  lemma {:induction false} PaintAllCovers(raster: Rasterizer, m: Mask, rs: seq<PixelRect>, p: Pixel)
    ensures PaintAll(raster, m, rs).rows == m.rows && PaintAll(raster, m, rs).cols == m.cols
    ensures p in PaintAll(raster, m, rs).painted <==>
      p in m.painted || exists i :: 0 <= i < |rs| && p in Footprint(raster, m, rs[i])
  {
    if rs != [] {
      var init := rs[..|rs| - 1];
      PaintAllCovers(raster, m, init, p);
      if p in PaintAll(raster, m, rs).painted && p !in m.painted {
        if p !in PaintAll(raster, m, init).painted {
          assert p in Footprint(raster, m, rs[|rs| - 1]);
        } else {
          var i :| 0 <= i < |init| && p in Footprint(raster, m, init[i]);
          assert rs[i] == init[i];
        }
      }
      if exists i :: 0 <= i < |rs| && p in Footprint(raster, m, rs[i]) {
        var i :| 0 <= i < |rs| && p in Footprint(raster, m, rs[i]);
        if i < |rs| - 1 {
          assert init[i] == rs[i];
        }
      }
    }
  }

  /** The mask depends only on which rectangles are painted, not on their order
      or repetition. */
  lemma PaintOrderIrrelevant(raster: Rasterizer, m: Mask, rs: seq<PixelRect>, ss: seq<PixelRect>)
    requires forall r :: r in rs <==> r in ss
    ensures PaintAll(raster, m, rs) == PaintAll(raster, m, ss)
  {
    forall p ensures p in PaintAll(raster, m, rs).painted <==> p in PaintAll(raster, m, ss).painted {
      PaintAllCovers(raster, m, rs, p);
      PaintAllCovers(raster, m, ss, p);
      if exists i :: 0 <= i < |rs| && p in Footprint(raster, m, rs[i]) {
        var i :| 0 <= i < |rs| && p in Footprint(raster, m, rs[i]);
        assert rs[i] in ss;
        var j :| 0 <= j < |ss| && ss[j] == rs[i];
      }
      if exists j :: 0 <= j < |ss| && p in Footprint(raster, m, ss[j]) {
        var j :| 0 <= j < |ss| && p in Footprint(raster, m, ss[j]);
        assert ss[j] in rs;
        var i :| 0 <= i < |rs| && rs[i] == ss[j];
      }
    }
    PaintAllCovers(raster, m, rs, (0, 0));
    PaintAllCovers(raster, m, ss, (0, 0));
  }

  /** Painting `[a, b]` and `[b, a]` gives the same mask. */
  lemma PaintTwoCommutes(raster: Rasterizer, m: Mask, a: PixelRect, b: PixelRect)
    ensures PaintAll(raster, m, [a, b]) == PaintAll(raster, m, [b, a])
  {
    PaintOrderIrrelevant(raster, m, [a, b], [b, a]);
  }

  /** Painting one list and then another is painting their concatenation. */
  lemma {:induction false} PaintAllAppend(raster: Rasterizer, m: Mask, rs: seq<PixelRect>, ss: seq<PixelRect>)
    ensures PaintAll(raster, PaintAll(raster, m, rs), ss) == PaintAll(raster, m, rs + ss)
  {
    if ss != [] {
      var init := ss[..|ss| - 1];
      PaintAllAppend(raster, m, rs, init);
      assert (rs + ss)[..|rs + ss| - 1] == rs + init;
    } else {
      assert rs + ss == rs;
    }
  }
}
