/**
 * Grid geometry of images and the visual-token arithmetic shared by the
 * input processor and the maximum-token query.
 */
module Grids {
  import opened Arith

  /** Patch-grid geometry (temporal, height, width) of one image or clip. */
  datatype Grid = Grid(t: nat, h: nat, w: nat)

  /** Visual tokens of one image: t * (h // m) * (w // m). */
  function VisionLen(g: Grid, mergeSize: nat): nat
    requires mergeSize > 0
  {
    DivTimesBelow(g.h, mergeSize);
    DivTimesBelow(g.w, mergeSize);
    MulNonneg(g.t, g.h / mergeSize);
    MulNonneg(g.t * (g.h / mergeSize), g.w / mergeSize);
    g.t * (g.h / mergeSize) * (g.w / mergeSize)
  }

  function VisionLens(grids: seq<Grid>, mergeSize: nat): (lens: seq<nat>)
    requires mergeSize > 0
    ensures |lens| == |grids|
    ensures forall i :: 0 <= i < |grids| ==> lens[i] == VisionLen(grids[i], mergeSize)
  {
    seq(|grids|, i requires 0 <= i < |grids| => VisionLen(grids[i], mergeSize))
  }

  // ---- _get_max_image_info ----

  const MAX_TEMPORAL_IMAGE_NUM: nat := 10

  datatype MaxImageInfo = MaxImageInfo(maxResizedHeight: nat, maxResizedWidth: nat, maxLlmImageTokens: nat)

  /** The worst-case grid: as many frames as fit in MAX_TEMPORAL_IMAGE_NUM, the
      largest resized size in patches. */
  function MaxGrid(maxResizedHeight: nat, maxResizedWidth: nat, patchSize: nat, temporalPatchSize: nat): Grid
    requires patchSize > 0 && temporalPatchSize > 0
  {
    DivTimesBelow(MAX_TEMPORAL_IMAGE_NUM, temporalPatchSize);
    DivTimesBelow(maxResizedHeight, patchSize);
    DivTimesBelow(maxResizedWidth, patchSize);
    Grid(MAX_TEMPORAL_IMAGE_NUM / temporalPatchSize, maxResizedHeight / patchSize, maxResizedWidth / patchSize)
  }

  /**
   * _get_max_image_info, given the worst-case resized size that the external
   * smart_resize returns: the sizes are passed through, and the token count is
   * the patch count of the worst-case grid floor-divided by the merge size
   * twice, that is the largest count whose m x m blocks fit in those patches.
   */
  function GetMaxImageInfo(maxResizedHeight: nat, maxResizedWidth: nat,
                           patchSize: nat, mergeSize: nat, temporalPatchSize: nat): (r: MaxImageInfo)
    requires patchSize > 0 && mergeSize > 0 && temporalPatchSize > 0
    ensures r.maxResizedHeight == maxResizedHeight && r.maxResizedWidth == maxResizedWidth
    ensures var g := MaxGrid(maxResizedHeight, maxResizedWidth, patchSize, temporalPatchSize);
      && r.maxLlmImageTokens * mergeSize * mergeSize <= g.t * g.h * g.w
      && g.t * g.h * g.w < (r.maxLlmImageTokens + 1) * mergeSize * mergeSize
  {
    var g := MaxGrid(maxResizedHeight, maxResizedWidth, patchSize, temporalPatchSize);
    MulNonneg(g.t, g.h);
    MulNonneg(g.t * g.h, g.w);
    var maxImageTokens: nat := g.t * g.h * g.w;
    DivTimesBelow(maxImageTokens, mergeSize);
    var once: nat := maxImageTokens / mergeSize;
    DivTimesBelow(once, mergeSize);
    var twice: nat := once / mergeSize;
    DivDecompose(maxImageTokens, mergeSize);
    DivDecompose(once, mergeSize);
    TwoDigits(maxImageTokens, mergeSize, once, maxImageTokens % mergeSize, twice, once % mergeSize);
    MaxImageInfo(maxResizedHeight, maxResizedWidth, twice)
  }

  lemma MergedTokensBound(t: nat, h: nat, w: nat, m: nat)
    requires m > 0
    ensures t * (h / m) * (w / m) <= t * h * w / m / m
  {
    var a, b := h / m, w / m;
    DivTimesBelow(h, m);
    DivTimesBelow(w, m);
    MulMono(a * m, b * m, h, w);
    MulMono(t, (a * m) * (b * m), t, h * w);
    var x := t * a * b;
    assert t * ((a * m) * (b * m)) == (x * m) * m;
    DivLowerBound(x * m, m, t * h * w);
    DivLowerBound(x, m, t * h * w / m);
  }

  /**
   * The maximum reported for the dummy data bounds what the splicer produces
   * for any image whose grid fits within the worst-case grid.
   */
  lemma MaxImageTokensBound(maxResizedHeight: nat, maxResizedWidth: nat, patchSize: nat,
                            mergeSize: nat, temporalPatchSize: nat, g: Grid)
    requires patchSize > 0 && mergeSize > 0 && temporalPatchSize > 0
    requires var mg := MaxGrid(maxResizedHeight, maxResizedWidth, patchSize, temporalPatchSize);
      g.t <= mg.t && g.h <= mg.h && g.w <= mg.w
    ensures VisionLen(g, mergeSize) <=
      GetMaxImageInfo(maxResizedHeight, maxResizedWidth, patchSize, mergeSize, temporalPatchSize).maxLlmImageTokens
  {
    var mg := MaxGrid(maxResizedHeight, maxResizedWidth, patchSize, temporalPatchSize);
    DivMono(g.h, mg.h, mergeSize);
    DivMono(g.w, mg.w, mergeSize);
    DivTimesBelow(g.h, mergeSize);
    DivTimesBelow(g.w, mergeSize);
    DivTimesBelow(mg.h, mergeSize);
    DivTimesBelow(mg.w, mergeSize);
    MulMono(g.t, g.h / mergeSize, mg.t, mg.h / mergeSize);
    MulMono(g.t * (g.h / mergeSize), g.w / mergeSize, mg.t * (mg.h / mergeSize), mg.w / mergeSize);
    MergedTokensBound(mg.t, mg.h, mg.w, mergeSize);
  }

  /**
   * smart_resize returns sizes that are multiples of patch * merge, so the
   * worst-case grid splits evenly into merge blocks; the reported maximum is then
   * exactly the splice length of that grid.
   */
  lemma MaxImageTokensExact(maxResizedHeight: nat, maxResizedWidth: nat, patchSize: nat,
                            mergeSize: nat, temporalPatchSize: nat)
    requires patchSize > 0 && mergeSize > 0 && temporalPatchSize > 0
    requires var mg := MaxGrid(maxResizedHeight, maxResizedWidth, patchSize, temporalPatchSize);
      mg.h % mergeSize == 0 && mg.w % mergeSize == 0
    ensures GetMaxImageInfo(maxResizedHeight, maxResizedWidth, patchSize, mergeSize, temporalPatchSize).maxLlmImageTokens
      == VisionLen(MaxGrid(maxResizedHeight, maxResizedWidth, patchSize, temporalPatchSize), mergeSize)
  {
    var mg := MaxGrid(maxResizedHeight, maxResizedWidth, patchSize, temporalPatchSize);
    var a, b := mg.h / mergeSize, mg.w / mergeSize;
    assert mg.h == a * mergeSize + mg.h % mergeSize;
    assert mg.w == b * mergeSize + mg.w % mergeSize;
    var x := mg.t * a * b;
    assert mg.t * mg.h * mg.w == (x * mergeSize) * mergeSize;
    DivExact(x * mergeSize, mergeSize);
    DivExact(x, mergeSize);
  }
}
