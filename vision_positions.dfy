/**
 * The (row, col) patch positions `rot_pos_emb` feeds to the rotary table:
 * each frame enumerates its h x w patches block by block, m x m blocks in
 * row-major order and row-major inside a block, and each image repeats its
 * frame t times. The gather of rotary rows by those pairs is modelled on the
 * abstract rows of the rotary table, not on the angles themselves.
 */
module VisionPositions {
  import opened Common
  import opened Arith
  import opened Grids
  import opened RotaryCache

  datatype PosId = PosId(row: nat, col: nat)

  /**
   * Entry k of `arange(h)` / `arange(w)` reshaped to (h/m, m, w/m, m),
   * permuted to (h/m, w/m, m, m) and flattened, `bw` being w/m: k is read as
   * the digits (bi, bj, r, c) of radix (., bw, m, m), and the patch is
   * (bi*m + r, bj*m + c).
   */
  function PosAt(k: nat, bw: nat, m: nat): PosId
    requires bw > 0 && m > 0
  {
    DivTimesBelow(k, m);
    var q: nat := k / m;
    DivTimesBelow(q, m);
    var blk: nat := q / m;
    DivTimesBelow(blk, bw);
    var bi: nat, bj: nat := blk / bw, blk % bw;
    MulNonneg(bi, m);
    MulNonneg(bj, m);
    PosId(bi * m + q % m, bj * m + k % m)
  }

  /** The inverse ordering: where patch p sits in the flattened frame. */
  function FlatIndex(p: PosId, bw: nat, m: nat): nat
    requires m > 0
  {
    DivTimesBelow(p.row, m);
    DivTimesBelow(p.col, m);
    var bi: nat, bj: nat := p.row / m, p.col / m;
    MulNonneg(bi, bw);
    var blk: nat := bi * bw + bj;
    MulNonneg(blk, m);
    var q: nat := blk * m + p.row % m;
    MulNonneg(q, m);
    q * m + p.col % m
  }

  lemma WidthPositive(h: nat, w: nat, m: nat, k: nat)
    requires m > 0 && w % m == 0 && k < h * w
    ensures w / m > 0
  {
    assert w == (w / m) * m;
  }

  /** One frame: `torch.stack([hpos_ids, wpos_ids], -1)` for an h x w grid. */
  function Frame(h: nat, w: nat, m: nat): (f: seq<PosId>)
    requires m > 0 && h % m == 0 && w % m == 0
    ensures |f| == h * w
  {
    seq(h * w, k requires 0 <= k < h * w => WidthPositive(h, w, m, k); PosAt(k, w / m, m))
  }

  // ---- the frame ordering is a bijection onto [0, h) x [0, w) ----

  lemma {:induction false} PosAtInFrame(k: nat, bh: nat, bw: nat, m: nat)
    requires bw > 0 && m > 0 && k < (bh * m) * (bw * m)
    ensures PosAt(k, bw, m).row < bh * m && PosAt(k, bw, m).col < bw * m
  {
    var blk := k / m / m;
    assert (bh * m) * (bw * m) == ((bh * bw) * m) * m;
    DivBelow(k, (bh * bw) * m, m);
    DivBelow(k / m, bh * bw, m);
    DivBelow(blk, bh, bw);
    var bi, bj := blk / bw, blk % bw;
    BlockSpan(bi, (k / m) % m, bh, m);
    BlockSpan(bj, k % m, bw, m);
  }

  lemma {:induction false} FlatIndexInFrame(p: PosId, bh: nat, bw: nat, m: nat)
    requires m > 0 && p.row < bh * m && p.col < bw * m
    ensures FlatIndex(p, bw, m) < (bh * m) * (bw * m)
  {
    DivTimesBelow(p.row, m);
    DivTimesBelow(p.col, m);
    var bi: nat, bj: nat := p.row / m, p.col / m;
    DivBelow(p.row, bh, m);
    DivBelow(p.col, bw, m);
    MulNonneg(bi, bw);
    var blk: nat := bi * bw + bj;
    BlockSpan(bi, bj, bh, bw);
    MulNonneg(blk, m);
    var q: nat := blk * m + p.row % m;
    BlockSpan(blk, p.row % m, bh * bw, m);
    BlockSpan(q, p.col % m, (bh * bw) * m, m);
    assert FlatIndex(p, bw, m) == q * m + p.col % m;
    Rearrange(bh, bw, m);
  }

  lemma Rearrange(a: nat, b: nat, m: nat)
    ensures (a * m) * (b * m) == ((a * b) * m) * m
  {
  }

  lemma {:induction false} FlatIndexOfPosAt(k: nat, bw: nat, m: nat)
    requires bw > 0 && m > 0
    ensures FlatIndex(PosAt(k, bw, m), bw, m) == k
  {
    var c, r, blk := k % m, (k / m) % m, k / m / m;
    var bi, bj := blk / bw, blk % bw;
    DivModUnique(bi * m + r, m, bi, r);
    DivModUnique(bj * m + c, m, bj, c);
    assert blk == bi * bw + bj;
    assert k / m == blk * m + r;
    assert k == (k / m) * m + c;
  }

  /** Reading k as the digits (bi, bj, r, c) gives the patch (bi*m + r, bj*m + c). */
  lemma PosAtDigits(k: nat, bw: nat, m: nat, bi: nat, bj: nat, r: nat, c: nat, blk: nat, q: nat)
    requires bw > 0 && m > 0 && bj < bw && r < m && c < m
    requires blk == bi * bw + bj && q == blk * m + r && k == q * m + c
    ensures PosAt(k, bw, m).row == bi * m + r && PosAt(k, bw, m).col == bj * m + c
  {
    DivModUnique(k, m, q, c);
    DivModUnique(q, m, blk, r);
    DivModUnique(blk, bw, bi, bj);
  }

  /** The flat index of p, digit by digit. */
  lemma FlatIndexDigits(p: PosId, bw: nat, m: nat, bi: nat, bj: nat, blk: nat, q: nat)
    requires m > 0 && bi == p.row / m && bj == p.col / m
    requires blk == bi * bw + bj && q == blk * m + p.row % m
    ensures FlatIndex(p, bw, m) == q * m + p.col % m
  {
  }

  lemma {:induction false} PosAtOfFlatIndex(p: PosId, bw: nat, m: nat)
    requires bw > 0 && m > 0 && p.col < bw * m
    ensures PosAt(FlatIndex(p, bw, m), bw, m) == p
  {
    DivTimesBelow(p.row, m);
    DivTimesBelow(p.col, m);
    var bi: nat, bj: nat := p.row / m, p.col / m;
    DivBelow(p.col, bw, m);
    MulNonneg(bi, bw);
    var blk: nat := bi * bw + bj;
    MulNonneg(blk, m);
    var q: nat := blk * m + p.row % m;
    FlatIndexDigits(p, bw, m, bi, bj, blk, q);
    MulNonneg(q, m);
    var k := FlatIndex(p, bw, m);
    PosAtDigits(k, bw, m, bi, bj, p.row % m, p.col % m, blk, q);
    DivDecompose(p.row, m);
    DivDecompose(p.col, m);
    assert PosAt(k, bw, m).row == p.row && PosAt(k, bw, m).col == p.col;
  }

  /** Every pair of a frame lies in the h x w grid ... */
  lemma FrameInGrid(h: nat, w: nat, m: nat, k: nat)
    requires m > 0 && h % m == 0 && w % m == 0 && k < h * w
    ensures Frame(h, w, m)[k].row < h && Frame(h, w, m)[k].col < w
  {
    WidthPositive(h, w, m, k);
    assert h == (h / m) * m && w == (w / m) * m;
    PosAtInFrame(k, h / m, w / m, m);
  }

  /** ... no pair occurs twice ... */
  lemma FrameInjective(h: nat, w: nat, m: nat, k1: nat, k2: nat)
    requires m > 0 && h % m == 0 && w % m == 0 && k1 < h * w && k2 < h * w
    requires Frame(h, w, m)[k1] == Frame(h, w, m)[k2]
    ensures k1 == k2
  {
    WidthPositive(h, w, m, k1);
    FlatIndexOfPosAt(k1, w / m, m);
    FlatIndexOfPosAt(k2, w / m, m);
  }

  /** ... and every patch of the grid occurs, at its flat index. */
  lemma FrameCovers(h: nat, w: nat, m: nat, p: PosId)
    requires m > 0 && h % m == 0 && w % m == 0 && p.row < h && p.col < w
    ensures FlatIndex(p, w / m, m) < h * w
    ensures Frame(h, w, m)[FlatIndex(p, w / m, m)] == p
  {
    assert h == (h / m) * m && w == (w / m) * m;
    FlatIndexInFrame(p, h / m, w / m, m);
    PosAtOfFlatIndex(p, w / m, m);
  }

  /**
   * The j-th pair of the g-th group of m*m consecutive pairs lies in block
   * (g / (w/m), g % (w/m)): every group is one m x m block.
   */
  lemma {:induction false} FrameBlock(h: nat, w: nat, m: nat, g: nat, j: nat)
    requires m > 0 && h % m == 0 && w % m == 0
    requires j < m * m && g * m * m + j < h * w
    ensures Frame(h, w, m)[g * m * m + j].row / m == g / (w / m)
    ensures Frame(h, w, m)[g * m * m + j].col / m == g % (w / m)
  {
    var k := g * m * m + j;
    WidthPositive(h, w, m, k);
    var bw := w / m;
    DivBelow(j, m, m);
    var j1, c := j / m, j % m;
    assert k == (g * m + j1) * m + c;
    MulNonneg(g, m);
    DivModUnique(k, m, g * m + j1, c);
    DivModUnique(g * m + j1, m, g, j1);
    var bi, bj := g / bw, g % bw;
    MulNonneg(bi, m);
    MulNonneg(bj, m);
    DivModUnique(bi * m + j1, m, bi, j1);
    DivModUnique(bj * m + c, m, bj, c);
  }

  // ---- images ----

  /** `.repeat(t, 1)`: t copies of one frame, one after the other. */
  function Tile<T>(s: seq<T>, t: nat): (r: seq<T>)
  {
    if t == 0 then [] else s + Tile(s, t - 1)
  }

  lemma {:induction false} TileLength<T>(s: seq<T>, t: nat)
    ensures |Tile(s, t)| == t * |s|
  {
    if t > 0 {
      TileLength(s, t - 1);
    }
  }

  /** Entry k of copy f is entry k of the frame. */
  lemma {:induction false} TileAt<T>(s: seq<T>, t: nat, f: nat, k: nat)
    requires f < t && k < |s|
    ensures f * |s| + k < |Tile(s, t)|
    ensures Tile(s, t)[f * |s| + k] == s[k]
  {
    TileLength(s, t);
    MulMono(f + 1, |s|, t, |s|);
    if f > 0 {
      TileAt(s, t - 1, f - 1, k);
      assert f * |s| + k == |s| + ((f - 1) * |s| + k);
    }
  }

  /** The reshape to (h/m, m, w/m, m) succeeds: it keeps the element count. */
  predicate ReshapeFits(h: nat, w: nat, m: nat)
    requires m > 0
  {
    (h / m) * m * ((w / m) * m) == h * w
  }

  /** Which is the case exactly when the grid is empty or m divides both sides. */
  lemma ReshapeFitsIff(h: nat, w: nat, m: nat)
    requires m > 0
    ensures ReshapeFits(h, w, m) <==> h * w == 0 || (h % m == 0 && w % m == 0)
  {
    DivTimesBelow(h, m);
    DivTimesBelow(w, m);
    var a: nat, b: nat := (h / m) * m, (w / m) * m;
    DivDecompose(h, m);
    DivDecompose(w, m);
    if h == 0 || w == 0 {
      assert a == 0 || b == 0;
      assert a * b == 0 && h * w == 0;
    } else {
      MulPositive(h, w);
      if h % m != 0 {
        MulStrict(a, b, h, w);
      } else if w % m != 0 {
        MulStrict(b, a, w, h);
        assert b * a == a * b && w * h == h * w;
      } else {
        assert a == h && b == w;
      }
    }
  }

  /** The pairs of one image; None when its reshape fails. */
  function ImagePosIds(g: Grid, m: nat): Option<seq<PosId>>
    requires m > 0
  {
    if !ReshapeFits(g.h, g.w, m) then None
    else if g.h * g.w == 0 then Some([])
    else
      ReshapeFitsIff(g.h, g.w, m);
      Some(Tile(Frame(g.h, g.w, m), g.t))
  }

  function PosIdsOf(grids: seq<Grid>, m: nat): Option<seq<PosId>>
    requires m > 0
  {
    if grids == [] then Some([])
    else match (ImagePosIds(grids[0], m), PosIdsOf(grids[1..], m))
      case (Some(a), Some(b)) => Some(a + b)
      case _ => None
  }

  /**
   * `rot_pos_emb`'s `pos_ids`: the images' pairs concatenated; None when a
   * reshape fails or there is no image (`torch.cat` of nothing raises).
   */
  function RotPosIds(grids: seq<Grid>, m: nat): Option<seq<PosId>>
    requires m > 0
  {
    if grids == [] then None else PosIdsOf(grids, m)
  }

  /** `grid_thw[:, 1:].max()`: the size of the rotary table being gathered from. */
  function MaxGridSize(grids: seq<Grid>): (r: nat)
    ensures forall i :: 0 <= i < |grids| ==> grids[i].h <= r && grids[i].w <= r
    ensures grids != [] ==> exists i :: 0 <= i < |grids| && (r == grids[i].h || r == grids[i].w)
  {
    if grids == [] then 0
    else
      var rest := MaxGridSize(grids[1..]);
      var side := if grids[0].h < grids[0].w then grids[0].w else grids[0].h;
      if side < rest then rest else side
  }

  /** Patches of an image: t * h * w. */
  function Patches(g: Grid): nat
  {
    MulNonneg(g.h, g.w);
    MulNonneg(g.t, g.h * g.w);
    g.t * (g.h * g.w)
  }

  function TotalPatches(grids: seq<Grid>): nat
  {
    if grids == [] then 0 else Patches(grids[0]) + TotalPatches(grids[1..])
  }

  /** An image contributes one pair per patch of each of its frames. */
  lemma ImagePosIdsLength(g: Grid, m: nat)
    requires m > 0 && ImagePosIds(g, m).Some?
    ensures |ImagePosIds(g, m).value| == Patches(g)
  {
    if g.h * g.w != 0 {
      ReshapeFitsIff(g.h, g.w, m);
      TileLength(Frame(g.h, g.w, m), g.t);
    }
  }

  /** Pair k of frame f of an image is pair k of `Frame`. */
  lemma ImagePosIdsAt(g: Grid, m: nat, f: nat, k: nat)
    requires m > 0 && g.h % m == 0 && g.w % m == 0 && f < g.t && k < g.h * g.w
    ensures ImagePosIds(g, m).Some?
    ensures f * (g.h * g.w) + k < |ImagePosIds(g, m).value|
    ensures ImagePosIds(g, m).value[f * (g.h * g.w) + k] == Frame(g.h, g.w, m)[k]
  {
    ReshapeFitsIff(g.h, g.w, m);
    TileAt(Frame(g.h, g.w, m), g.t, f, k);
  }

  /** The ids exist exactly when there is an image and every reshape fits. */
  lemma {:induction false} PosIdsOfSome(grids: seq<Grid>, m: nat)
    requires m > 0
    ensures PosIdsOf(grids, m).Some? <==>
      forall i :: 0 <= i < |grids| ==> ReshapeFits(grids[i].h, grids[i].w, m)
    ensures PosIdsOf(grids, m).Some? ==> |PosIdsOf(grids, m).value| == TotalPatches(grids)
  {
    if grids != [] {
      PosIdsOfSome(grids[1..], m);
      if ImagePosIds(grids[0], m).Some? {
        ImagePosIdsLength(grids[0], m);
      }
      assert forall i :: 1 <= i < |grids| ==> grids[i] == grids[1..][i - 1];
    }
  }

  lemma RotPosIdsSome(grids: seq<Grid>, m: nat)
    requires m > 0
    ensures RotPosIds(grids, m).Some? <==>
      grids != [] && forall i :: 0 <= i < |grids| ==> ReshapeFits(grids[i].h, grids[i].w, m)
    ensures RotPosIds(grids, m).Some? ==> |RotPosIds(grids, m).value| == TotalPatches(grids)
  {
    PosIdsOfSome(grids, m);
  }

  lemma ImagePosIdsInTable(g: Grid, m: nat, n: nat, p: PosId)
    requires m > 0 && ImagePosIds(g, m).Some? && p in ImagePosIds(g, m).value
    requires g.h <= n && g.w <= n
    ensures p.row < n && p.col < n
  {
    ReshapeFitsIff(g.h, g.w, m);
    var s := Frame(g.h, g.w, m);
    TileIn(s, g.t, p);
    var k :| 0 <= k < |s| && s[k] == p;
    FrameInGrid(g.h, g.w, m, k);
  }

  lemma {:induction false} TileIn<T>(s: seq<T>, t: nat, x: T)
    requires x in Tile(s, t)
    ensures x in s
  {
    if t > 0 && x !in s {
      TileIn(s, t - 1, x);
    }
  }

  /** Every pair indexes inside the rotary table of `max_grid_size` rows, so
      the gather never reads past it. */
  lemma {:induction false} PosIdsInTable(grids: seq<Grid>, m: nat, n: nat, p: PosId)
    requires m > 0 && PosIdsOf(grids, m).Some? && p in PosIdsOf(grids, m).value
    requires MaxGridSize(grids) <= n
    ensures p.row < n && p.col < n
  {
    var a, b := ImagePosIds(grids[0], m).value, PosIdsOf(grids[1..], m).value;
    if p in a {
      ImagePosIdsInTable(grids[0], m, n, p);
    } else {
      assert p in b;
      PosIdsInTable(grids[1..], m, n, p);
    }
  }

  lemma RotPosIdsInTable(grids: seq<Grid>, m: nat, p: PosId)
    requires m > 0 && RotPosIds(grids, m).Some? && p in RotPosIds(grids, m).value
    ensures p.row < MaxGridSize(grids) && p.col < MaxGridSize(grids)
  {
    PosIdsInTable(grids, m, MaxGridSize(grids), p);
  }

  /**
   * `rot_pos_emb`: the pairs are computed first, so a failed reshape or an
   * empty batch leaves the rotary module untouched; then the table for
   * `max_grid_size`, a 0-dim tensor, is requested (after a rebuild the whole
   * doubled table comes back) and row p of each pair picks table row p.
   * A batch whose grids all have h = w = 0 requests length 0, which fails on a
   * module whose cache was never filled.
   */
  method RotPosEmb(rotary: Qwen2VisionRotaryEmbedding, grids: seq<Grid>, m: nat)
    returns (r: Option<seq<(FreqRow, FreqRow)>>)
    requires m > 0 && rotary.Valid()
    modifies rotary
    ensures rotary.Valid()
    ensures RotPosIds(grids, m).None? ==> r.None? && unchanged(rotary)
    ensures RotPosIds(grids, m).Some? ==>
      && (r.None? <==> MaxGridSize(grids) == 0 && old(rotary.seqLenCached) == 0)
      && (MaxGridSize(grids) > old(rotary.seqLenCached) ==> rotary.seqLenCached == 2 * MaxGridSize(grids))
      && (MaxGridSize(grids) <= old(rotary.seqLenCached) ==>
            rotary.seqLenCached == old(rotary.seqLenCached) && rotary.freqsCached == old(rotary.freqsCached))
    ensures r.Some? ==>
      && RotPosIds(grids, m).Some?
      && |r.value| == |RotPosIds(grids, m).value|
      && forall i :: 0 <= i < |r.value| ==>
           r.value[i] == (FreqRow(RotPosIds(grids, m).value[i].row), FreqRow(RotPosIds(grids, m).value[i].col))
  {
    var posIds := RotPosIds(grids, m);
    if posIds.None? {
      return None;
    }
    var ids := posIds.value;
    var maxGridSize := MaxGridSize(grids);
    var full := rotary.Forward(maxGridSize, true);
    if full.None? {
      return None;
    }
    var table := full.value;
    forall i | 0 <= i < |ids|
      ensures ids[i].row < |table| && ids[i].col < |table|
    {
      RotPosIdsInTable(grids, m, ids[i]);
    }
    r := Some(seq(|ids|, i requires 0 <= i < |ids| => (table[ids[i].row], table[ids[i].col])));
  }

  /** One image of zero height and width on a fresh rotary module: no pairs, a
      request of length 0, and the slice of the empty cache fails. */
  method ZeroGridOnFreshModule() returns (r: Option<seq<(FreqRow, FreqRow)>>)
    ensures r.None?
  {
    var rotary := new Qwen2VisionRotaryEmbedding(40, 10000.0);
    var grids := [Grid(1, 0, 0)];
    assert ReshapeFits(0, 0, 2);
    RotPosIdsSome(grids, 2);
    assert MaxGridSize(grids) == 0;
    r := RotPosEmb(rotary, grids, 2);
  }
}
