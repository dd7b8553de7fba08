/**
 * `cu_seqlens`, the cumulative frame boundaries that cut the vision tower's
 * packed patch sequence into per-frame attention windows: every frame of an
 * image contributes its h * w patches, the running totals are accumulated in
 * int32, and a leading 0 is padded in.
 */
module AttentionWindows {
  import opened Common
  import opened Arith
  import opened Grids
  import opened VisionPositions

  const INT32_MIN: int := -0x8000_0000
  const INT32_MODULUS: int := 0x1_0000_0000

  /** Two's-complement wrap-around of an int32 accumulator. */
  function Int32(x: int): (r: int)
    ensures INT32_MIN <= r < -INT32_MIN
    ensures INT32_MIN <= x < -INT32_MIN ==> r == x
  {
    (x - INT32_MIN) % INT32_MODULUS + INT32_MIN
  }

  /** `torch.repeat_interleave(h * w, t)`: the patch count of every frame. */
  function FrameLens(grids: seq<Grid>): seq<nat>
  {
    if grids == [] then [] else Repeat<nat>(grids[0].h * grids[0].w, grids[0].t) + FrameLens(grids[1..])
  }

  /** Frames of all images: Σ t. */
  function NumFrames(grids: seq<Grid>): nat
  {
    if grids == [] then 0 else grids[0].t + NumFrames(grids[1..])
  }

  /** `.cumsum(dtype=int32)` followed by `F.pad(.., (1, 0))`: entry k is the
      int32 total of the first k frame lengths. */
  function CuSeqlens(grids: seq<Grid>): (cu: seq<int>)
  {
    var lens := FrameLens(grids);
    seq(|lens| + 1, k requires 0 <= k <= |lens| => Int32(Sum(lens[..k])))
  }

  lemma {:induction false} FrameLensShape(grids: seq<Grid>)
    ensures |FrameLens(grids)| == NumFrames(grids)
    ensures Sum(FrameLens(grids)) == TotalPatches(grids)
  {
    if grids != [] {
      var g := grids[0];
      FrameLensShape(grids[1..]);
      var x: nat := g.h * g.w;
      assert FrameLens(grids) == Repeat(x, g.t) + FrameLens(grids[1..]);
      SumAppend(Repeat(x, g.t), FrameLens(grids[1..]));
      SumRepeat(x, g.t);
      assert Patches(g) == g.t * (g.h * g.w);
      assert TotalPatches(grids) == Patches(g) + TotalPatches(grids[1..]);
    }
  }

  /** Frame f of image i sits at NumFrames(grids[..i]) + f and has h_i * w_i patches. */
  lemma {:induction false} FrameLensOfImage(grids: seq<Grid>, i: nat, f: nat)
    requires i < |grids| && f < grids[i].t
    ensures NumFrames(grids[..i]) + f < |FrameLens(grids)|
    ensures FrameLens(grids)[NumFrames(grids[..i]) + f] == grids[i].h * grids[i].w
  {
    FrameLensShape(grids);
    FrameLensShape(grids[1..]);
    if i > 0 {
      FrameLensOfImage(grids[1..], i - 1, f);
      assert grids[1..][..i - 1] == grids[..i][1..];
    }
  }

  /** Patches before image i: the sum of the frame lengths before its first frame. */
  lemma {:induction false} FrameLensPrefix(grids: seq<Grid>, i: nat)
    requires i <= |grids|
    ensures NumFrames(grids[..i]) <= |FrameLens(grids)|
    ensures FrameLens(grids)[..NumFrames(grids[..i])] == FrameLens(grids[..i])
  {
    FrameLensShape(grids);
    FrameLensShape(grids[..i]);
    if i > 0 {
      var g := grids[0];
      FrameLensPrefix(grids[1..], i - 1);
      assert grids[1..][..i - 1] == grids[..i][1..];
      FrameLensShape(grids[1..]);
    } else {
      assert grids[..i] == [];
    }
  }

  /** The window list starts at 0 and has one boundary more than there are frames. */
  lemma CuSeqlensShape(grids: seq<Grid>)
    ensures |CuSeqlens(grids)| == 1 + NumFrames(grids)
    ensures CuSeqlens(grids)[0] == 0
  {
    FrameLensShape(grids);
    assert FrameLens(grids)[..0] == [];
  }

  /** Without int32 overflow, entry k is exactly the first k frame lengths summed. */
  lemma CuSeqlensExact(grids: seq<Grid>, k: nat)
    requires TotalPatches(grids) < -INT32_MIN
    requires k <= |FrameLens(grids)|
    ensures CuSeqlens(grids)[k] == Sum(FrameLens(grids)[..k])
  {
    FrameLensShape(grids);
    SumPrefixBelow(FrameLens(grids), k);
  }

  /** Each window is as long as its frame: h * w of the frame's image. */
  lemma CuSeqlensStep(grids: seq<Grid>, i: nat, f: nat)
    requires TotalPatches(grids) < -INT32_MIN
    requires i < |grids| && f < grids[i].t
    ensures NumFrames(grids[..i]) + f + 1 < |CuSeqlens(grids)|
    ensures CuSeqlens(grids)[NumFrames(grids[..i]) + f + 1] - CuSeqlens(grids)[NumFrames(grids[..i]) + f]
      == grids[i].h * grids[i].w
  {
    var k := NumFrames(grids[..i]) + f;
    FrameLensOfImage(grids, i, f);
    CuSeqlensExact(grids, k);
    CuSeqlensExact(grids, k + 1);
    SumPrefixStep(FrameLens(grids), k);
  }

  /** Without int32 overflow the boundaries never decrease. */
  lemma CuSeqlensMonotone(grids: seq<Grid>, j: nat, k: nat)
    requires TotalPatches(grids) < -INT32_MIN
    requires j <= k < |CuSeqlens(grids)|
    ensures CuSeqlens(grids)[j] <= CuSeqlens(grids)[k]
  {
    var lens := FrameLens(grids);
    CuSeqlensExact(grids, j);
    CuSeqlensExact(grids, k);
    assert lens[..k] == lens[..j] + lens[j..k];
    SumAppend(lens[..j], lens[j..k]);
  }

  /** The first boundary of image i is the patch count of the images before it,
      so no window spans two images, and the last boundary is the total. */
  lemma CuSeqlensImageStart(grids: seq<Grid>, i: nat)
    requires TotalPatches(grids) < -INT32_MIN
    requires i <= |grids|
    ensures NumFrames(grids[..i]) < |CuSeqlens(grids)|
    ensures CuSeqlens(grids)[NumFrames(grids[..i])] == TotalPatches(grids[..i])
  {
    FrameLensPrefix(grids, i);
    FrameLensShape(grids[..i]);
    CuSeqlensExact(grids, NumFrames(grids[..i]));
  }

  lemma CuSeqlensLast(grids: seq<Grid>)
    requires TotalPatches(grids) < -INT32_MIN
    ensures CuSeqlens(grids)[|CuSeqlens(grids)| - 1] == TotalPatches(grids)
  {
    CuSeqlensImageStart(grids, |grids|);
    assert grids[..|grids|] == grids;
    CuSeqlensShape(grids);
  }
}
