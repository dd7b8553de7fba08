/**
 * `Qwen2VLForConditionalGeneration.load_weights`: how each checkpoint tensor
 * is routed to a model parameter. Skipped names, the stacked-parameter
 * rename where the first matching shard name wins, and the head interleave
 * applied to the vision tower's fused qkv tensors. A loader call is
 * recorded rather than performed: only its arguments are modelled.
 */
module WeightLoading {
  import opened Common
  import opened Arith
  import opened Strings

  datatype ShardId = ShardName(name: string) | ShardIndex(index: nat)

  datatype StackedParam = StackedParam(paramName: string, weightName: string, shardId: ShardId)

  const STACKED_PARAMS_MAPPING: seq<StackedParam> := [
    StackedParam("qkv_proj", "q_proj", ShardName("q")),
    StackedParam("qkv_proj", "k_proj", ShardName("k")),
    StackedParam("qkv_proj", "v_proj", ShardName("v")),
    StackedParam("gate_up_proj", "up_proj", ShardIndex(1)),
    StackedParam("gate_up_proj", "gate_proj", ShardIndex(0))
  ]

  /** A model parameter: only whether it carries its own `weight_loader`. */
  datatype Param = Param(hasWeightLoader: bool)

  datatype Loader = ParamLoader | DefaultLoader

  datatype VisionConfig = VisionConfig(numHeads: nat, embedDim: nat)

  /** One checkpoint entry; the tensor is its sequence of leading-axis rows. */
  datatype NamedWeight<R> = NamedWeight(name: string, weight: seq<R>)

  /** `weight_loader(param, loaded_weight[, shard_id])`. */
  datatype LoaderCall<R> = LoaderCall(param: string, loader: Loader, weight: seq<R>, shardId: Option<ShardId>)

  datatype LoadError =
    | MissingParam(name: string)        // KeyError from params_dict[name]
    | MissingWeightLoader(name: string) // AttributeError from param.weight_loader
    | ZeroHeads                         // ZeroDivisionError from embed_dim // num_heads
    | ViewMismatch(name: string)        // RuntimeError from .view(3, H, D, ...)

  datatype LoadOutcome<R> = LoadOutcome(calls: seq<LoaderCall<R>>, error: Option<LoadError>)

  // ---- the fused qkv head interleave, (3, H, D) -> (H, 3, D) ----

  /** The input row that lands at output row k = (h*3 + s)*D + d: row (s*H + h)*D + d. */
  function QkvSource(k: nat, numHeads: nat, headSize: nat): nat
    requires headSize > 0
  {
    DivTimesBelow(k, headSize);
    var hs: nat := k / headSize;
    DivTimesBelow(hs, 3);
    var h: nat, s: nat := hs / 3, hs % 3;
    MulNonneg(s, numHeads);
    MulNonneg(s * numHeads + h, headSize);
    (s * numHeads + h) * headSize + k % headSize
  }

  /** The output row that input row i = (s*H + h)*D + d moves to: (h*3 + s)*D + d. */
  function QkvDest(i: nat, numHeads: nat, headSize: nat): nat
    requires numHeads > 0 && headSize > 0
  {
    DivTimesBelow(i, headSize);
    var sh: nat := i / headSize;
    DivTimesBelow(sh, numHeads);
    var s: nat, h: nat := sh / numHeads, sh % numHeads;
    MulNonneg(h, 3);
    MulNonneg(h * 3 + s, headSize);
    (h * 3 + s) * headSize + i % headSize
  }

  /** Reading k as the digits (h, s, d) of radix (., 3, D). */
  lemma QkvSourceDigits(k: nat, numHeads: nat, headSize: nat, h: nat, s: nat, d: nat)
    requires headSize > 0 && s < 3 && d < headSize
    requires k == (h * 3 + s) * headSize + d
    ensures QkvSource(k, numHeads, headSize) == (s * numHeads + h) * headSize + d
  {
    MulNonneg(h, 3);
    DivModUnique(k, headSize, h * 3 + s, d);
    DivModUnique(h * 3 + s, 3, h, s);
  }

  /** Reading i as the digits (s, h, d) of radix (., H, D). */
  lemma QkvDestDigits(i: nat, numHeads: nat, headSize: nat, s: nat, h: nat, d: nat)
    requires numHeads > 0 && headSize > 0 && h < numHeads && d < headSize
    requires i == (s * numHeads + h) * headSize + d
    ensures QkvDest(i, numHeads, headSize) == (h * 3 + s) * headSize + d
  {
    MulNonneg(s, numHeads);
    DivModUnique(i, headSize, s * numHeads + h, d);
    DivModUnique(s * numHeads + h, numHeads, s, h);
  }

  lemma QkvDigitBounds(a: nat, b: nat, base: nat, d: nat, headSize: nat, n: nat)
    requires a < n && b < base && d < headSize
    ensures (a * base + b) * headSize + d < (n * base) * headSize
  {
    BlockSpan(a, b, n, base);
    BlockSpan(a * base + b, d, n * base, headSize);
  }

  /** The source index of every output row is a row of the input, and QkvDest
      undoes it: the interleave is a bijection on [0, 3*H*D). */
  lemma {:induction false} QkvSourceInverse(k: nat, numHeads: nat, headSize: nat)
    requires headSize > 0 && k < 3 * numHeads * headSize
    ensures numHeads > 0
    ensures QkvSource(k, numHeads, headSize) < 3 * numHeads * headSize
    ensures QkvDest(QkvSource(k, numHeads, headSize), numHeads, headSize) == k
  {
    DivTimesBelow(k, headSize);
    var hs: nat := k / headSize;
    DivTimesBelow(hs, 3);
    var h: nat, s: nat, d: nat := hs / 3, hs % 3, k % headSize;
    assert 3 * numHeads * headSize == (numHeads * 3) * headSize;
    DivBelow(k, numHeads * 3, headSize);
    DivBelow(hs, numHeads, 3);
    DivDecompose(k, headSize);
    DivDecompose(hs, 3);
    QkvSourceDigits(k, numHeads, headSize, h, s, d);
    QkvDigitBounds(s, h, numHeads, d, headSize, 3);
    QkvDestDigits(QkvSource(k, numHeads, headSize), numHeads, headSize, s, h, d);
  }

  lemma {:induction false} QkvDestInverse(i: nat, numHeads: nat, headSize: nat)
    requires numHeads > 0 && headSize > 0 && i < 3 * numHeads * headSize
    ensures QkvDest(i, numHeads, headSize) < 3 * numHeads * headSize
    ensures QkvSource(QkvDest(i, numHeads, headSize), numHeads, headSize) == i
  {
    DivTimesBelow(i, headSize);
    var sh: nat := i / headSize;
    DivTimesBelow(sh, numHeads);
    var s: nat, h: nat, d: nat := sh / numHeads, sh % numHeads, i % headSize;
    assert 3 * numHeads * headSize == (3 * numHeads) * headSize;
    DivBelow(i, 3 * numHeads, headSize);
    DivBelow(sh, 3, numHeads);
    DivDecompose(i, headSize);
    DivDecompose(sh, numHeads);
    QkvDestDigits(i, numHeads, headSize, s, h, d);
    QkvDigitBounds(h, s, 3, d, headSize, numHeads);
    assert (numHeads * 3) * headSize == 3 * numHeads * headSize;
    QkvSourceDigits(QkvDest(i, numHeads, headSize), numHeads, headSize, h, s, d);
  }

  /** `.view(3, H, D, ...).transpose(0, 1).reshape(-1, ...)` on the rows. */
  function QkvInterleave<R>(x: seq<R>, numHeads: nat, headSize: nat): (y: seq<R>)
    requires |x| == 3 * numHeads * headSize
    ensures |y| == |x|
  {
    seq(|x|, k requires 0 <= k < |x| =>
      QkvSourceInverse(k, numHeads, headSize);
      x[QkvSource(k, numHeads, headSize)])
  }

  /** Row d of head h of part s (q, k or v) moves from s*H*D + h*D + d to h*3*D + s*D + d. */
  lemma QkvInterleaveAt<R>(x: seq<R>, numHeads: nat, headSize: nat, s: nat, h: nat, d: nat)
    requires |x| == 3 * numHeads * headSize
    requires s < 3 && h < numHeads && d < headSize
    ensures 0 <= s * numHeads * headSize + h * headSize + d < |x|
    ensures 0 <= h * 3 * headSize + s * headSize + d < |x|
    ensures QkvInterleave(x, numHeads, headSize)[h * 3 * headSize + s * headSize + d]
         == x[s * numHeads * headSize + h * headSize + d]
  {
    MulNonneg(h, 3);
    MulNonneg(s, numHeads);
    var k: nat := (h * 3 + s) * headSize + d;
    var src: nat := (s * numHeads + h) * headSize + d;
    DigitsExpand(h, s, 3, headSize);
    DigitsExpand(s, h, numHeads, headSize);
    QkvBounds(numHeads, headSize, s, h, d);
    QkvSourceDigits(k, numHeads, headSize, h, s, d);
  }

  lemma QkvBounds(numHeads: nat, headSize: nat, s: nat, h: nat, d: nat)
    requires s < 3 && h < numHeads && d < headSize
    ensures (h * 3 + s) * headSize + d < 3 * numHeads * headSize
    ensures (s * numHeads + h) * headSize + d < 3 * numHeads * headSize
  {
    QkvDigitBounds(h, s, 3, d, headSize, numHeads);
    QkvDigitBounds(s, h, numHeads, d, headSize, 3);
    assert (numHeads * 3) * headSize == 3 * numHeads * headSize;
  }

  // ---- routing of one checkpoint entry ----

  /** The index of the first mapping entry from `from` on whose shard name occurs in `name`. */
  function FirstMatch(name: string, mapping: seq<StackedParam>, from: nat): (r: Option<nat>)
    requires from <= |mapping|
    ensures r.Some? ==> from <= r.value < |mapping| && Contains(name, mapping[r.value].weightName)
    ensures r.Some? ==> forall k :: from <= k < r.value ==> !Contains(name, mapping[k].weightName)
    ensures r.None? ==> forall k :: from <= k < |mapping| ==> !Contains(name, mapping[k].weightName)
    decreases |mapping| - from
  {
    if from == |mapping| then None
    else if Contains(name, mapping[from].weightName) then Some(from)
    else FirstMatch(name, mapping, from + 1)
  }

  predicate IsVisualQkv(name: string)
  {
    Contains(name, "visual") && (Contains(name, "qkv.weight") || Contains(name, "qkv.bias"))
  }

  /** The qkv tensor of the vision tower in the interleaved head order. */
  function VisualQkv<R>(name: string, weight: seq<R>, cfg: VisionConfig): (r: Result<seq<R>, LoadError>)
    ensures r == Err(ZeroHeads) <==> cfg.numHeads == 0
    ensures r == Err(ViewMismatch(name)) <==>
      cfg.numHeads > 0 && |weight| != 3 * cfg.numHeads * (cfg.embedDim / cfg.numHeads)
    ensures r.Ok? ==> |r.value| == |weight|
  {
    if cfg.numHeads == 0 then Err(ZeroHeads)
    else
      var headSize := cfg.embedDim / cfg.numHeads;
      if |weight| != 3 * cfg.numHeads * headSize then Err(ViewMismatch(name))
      else Ok(QkvInterleave(weight, cfg.numHeads, headSize))
  }

  /** What the loop body does with one entry: Ok(None) for a skipped entry,
      Ok(Some(call)) for a loaded one, Err for the exception it raises. */
  function Route<R>(entry: NamedWeight<R>, tieWordEmbeddings: bool, params: map<string, Param>,
                    cfg: VisionConfig): (r: Result<Option<LoaderCall<R>>, LoadError>)
    ensures Contains(entry.name, "rotary_emb.inv_freq") ==> r == Ok(None)
    ensures tieWordEmbeddings && Contains(entry.name, "lm_head.weight") ==> r == Ok(None)
    ensures r.Ok? && r.value.Some? ==> r.value.value.param in params
  {
    if Contains(entry.name, "rotary_emb.inv_freq") then Ok(None)
    else if tieWordEmbeddings && Contains(entry.name, "lm_head.weight") then Ok(None)
    else match FirstMatch(entry.name, STACKED_PARAMS_MAPPING, 0)
      case Some(i) =>
        var p := STACKED_PARAMS_MAPPING[i];
        var name := ReplaceAll(entry.name, p.weightName, p.paramName);
        if name !in params then Err(MissingParam(name))
        else if !params[name].hasWeightLoader then Err(MissingWeightLoader(name))
        else Ok(Some(LoaderCall(name, ParamLoader, entry.weight, Some(p.shardId))))
      case None =>
        var weight := if IsVisualQkv(entry.name) then VisualQkv(entry.name, entry.weight, cfg) else Ok(entry.weight);
        if weight.Err? then Err(weight.error)
        else if entry.name !in params then Err(MissingParam(entry.name))
        else
          var loader := if params[entry.name].hasWeightLoader then ParamLoader else DefaultLoader;
          Ok(Some(LoaderCall(entry.name, loader, weight.value, None)))
  }

  /** The calls made for the entries in order, up to the first exception. */
  function LoadOutcomeOf<R>(weights: seq<NamedWeight<R>>, tieWordEmbeddings: bool,
                            params: map<string, Param>, cfg: VisionConfig): LoadOutcome<R>
  {
    if weights == [] then LoadOutcome([], None)
    else match Route(weights[0], tieWordEmbeddings, params, cfg)
      case Err(e) => LoadOutcome([], Some(e))
      case Ok(None) => LoadOutcomeOf(weights[1..], tieWordEmbeddings, params, cfg)
      case Ok(Some(call)) =>
        var rest := LoadOutcomeOf(weights[1..], tieWordEmbeddings, params, cfg);
        LoadOutcome([call] + rest.calls, rest.error)
  }

  /**
   * The body of the loop for one checkpoint entry: the skip rules, the scan
   * of the stacked mapping with its `for ... else`, then the qkv interleave
   * and the parameter's own or the default loader. Ok(None) is a `continue`.
   */
  method LoadEntry<R>(entry: NamedWeight<R>, tieWordEmbeddings: bool,
                      params: map<string, Param>, cfg: VisionConfig)
    returns (r: Result<Option<LoaderCall<R>>, LoadError>)
    ensures r == Route(entry, tieWordEmbeddings, params, cfg)
  {
    var name, loadedWeight := entry.name, entry.weight;
    if Contains(name, "rotary_emb.inv_freq") {
      return Ok(None);
    }
    if tieWordEmbeddings && Contains(name, "lm_head.weight") {
      return Ok(None);
    }
    var j := 0;
    while j < |STACKED_PARAMS_MAPPING|
      invariant j <= |STACKED_PARAMS_MAPPING|
      invariant FirstMatch(name, STACKED_PARAMS_MAPPING, 0) == FirstMatch(name, STACKED_PARAMS_MAPPING, j)
    {
      if Contains(name, STACKED_PARAMS_MAPPING[j].weightName) {
        break;
      }
      j := j + 1;
    }
    if j < |STACKED_PARAMS_MAPPING| {
      assert FirstMatch(entry.name, STACKED_PARAMS_MAPPING, 0) == Some(j);
      var p := STACKED_PARAMS_MAPPING[j];
      name := ReplaceAll(name, p.weightName, p.paramName);
      if name !in params {
        return Err(MissingParam(name));
      }
      if !params[name].hasWeightLoader {
        return Err(MissingWeightLoader(name));
      }
      return Ok(Some(LoaderCall(name, ParamLoader, loadedWeight, Some(p.shardId))));
    }
    assert FirstMatch(entry.name, STACKED_PARAMS_MAPPING, 0) == None;
    if IsVisualQkv(name) {
      var interleaved := VisualQkv(name, loadedWeight, cfg);
      if interleaved.Err? {
        return Err(interleaved.error);
      }
      loadedWeight := interleaved.value;
    }
    if name !in params {
      return Err(MissingParam(name));
    }
    var loader := if params[name].hasWeightLoader then ParamLoader else DefaultLoader;
    return Ok(Some(LoaderCall(name, loader, loadedWeight, None)));
  }

  /** `load_weights`: every entry in checkpoint order, until one raises. */
  method LoadWeights<R>(weights: seq<NamedWeight<R>>, tieWordEmbeddings: bool,
                        params: map<string, Param>, cfg: VisionConfig)
    returns (calls: seq<LoaderCall<R>>, error: Option<LoadError>)
    ensures LoadOutcome(calls, error) == LoadOutcomeOf(weights, tieWordEmbeddings, params, cfg)
  {
    calls := [];
    var i := 0;
    while i < |weights|
      invariant i <= |weights|
      invariant LoadOutcomeOf(weights, tieWordEmbeddings, params, cfg)
        == var rest := LoadOutcomeOf(weights[i..], tieWordEmbeddings, params, cfg);
           LoadOutcome(calls + rest.calls, rest.error)
    {
      assert weights[i..][1..] == weights[i + 1..];
      var r := LoadEntry(weights[i], tieWordEmbeddings, params, cfg);
      match r {
        case Err(e) =>
          return calls, Some(e);
        case Ok(None) =>
        case Ok(Some(call)) =>
          calls := calls + [call];
      }
      i := i + 1;
    }
    assert weights[i..] == [];
    error := None;
  }

  // ---- properties of the routing ----

  /** The first mapping entry whose shard name occurs decides the rename and the shard id. */
  lemma RouteFirstStackedMatch<R>(entry: NamedWeight<R>, tieWordEmbeddings: bool, params: map<string, Param>,
                                  cfg: VisionConfig, i: nat)
    requires !Contains(entry.name, "rotary_emb.inv_freq")
    requires !(tieWordEmbeddings && Contains(entry.name, "lm_head.weight"))
    requires i < |STACKED_PARAMS_MAPPING| && Contains(entry.name, STACKED_PARAMS_MAPPING[i].weightName)
    requires forall k :: 0 <= k < i ==> !Contains(entry.name, STACKED_PARAMS_MAPPING[k].weightName)
    ensures var p := STACKED_PARAMS_MAPPING[i];
      var name := ReplaceAll(entry.name, p.weightName, p.paramName);
      Route(entry, tieWordEmbeddings, params, cfg) ==
        if name !in params then Err(MissingParam(name))
        else if !params[name].hasWeightLoader then Err(MissingWeightLoader(name))
        else Ok(Some(LoaderCall(name, ParamLoader, entry.weight, Some(p.shardId))))
  {
  }

  /** A loaded entry gets a shard id exactly when some shard name occurs in it, and its
      tensor is passed on unchanged unless it is an interleaved vision qkv tensor. */
  lemma RouteLoaded<R>(entry: NamedWeight<R>, tieWordEmbeddings: bool, params: map<string, Param>,
                       cfg: VisionConfig)
    requires Route(entry, tieWordEmbeddings, params, cfg).Ok?
    requires Route(entry, tieWordEmbeddings, params, cfg).value.Some?
    ensures var call := Route(entry, tieWordEmbeddings, params, cfg).value.value;
      && (call.shardId.Some? <==>
            exists k :: 0 <= k < |STACKED_PARAMS_MAPPING| && Contains(entry.name, STACKED_PARAMS_MAPPING[k].weightName))
      && (call.weight != entry.weight ==> call.shardId.None? && IsVisualQkv(entry.name))
      && (call.shardId.None? ==> call.param == entry.name)
  {
  }

  /** Entry j raises e and every entry before it routes without raising. */
  ghost predicate FirstError<R>(weights: seq<NamedWeight<R>>, tieWordEmbeddings: bool,
                                params: map<string, Param>, cfg: VisionConfig, j: nat, e: LoadError)
    requires j < |weights|
  {
    && Route(weights[j], tieWordEmbeddings, params, cfg) == Err(e)
    && forall k :: 0 <= k < j ==> Route(weights[k], tieWordEmbeddings, params, cfg).Ok?
  }

  /** The loop stops at the first entry whose routing raises, having made the calls of
      the entries before it. */
  lemma {:induction false} LoadOutcomeError<R>(weights: seq<NamedWeight<R>>, tieWordEmbeddings: bool,
                                               params: map<string, Param>, cfg: VisionConfig)
    ensures var o := LoadOutcomeOf(weights, tieWordEmbeddings, params, cfg);
      && |o.calls| <= |weights|
      && (o.error.Some? <==> exists j :: 0 <= j < |weights| && Route(weights[j], tieWordEmbeddings, params, cfg).Err?)
      && (o.error.Some? ==>
            exists j :: 0 <= j < |weights| && FirstError(weights, tieWordEmbeddings, params, cfg, j, o.error.value))
  {
    if weights != [] {
      LoadOutcomeError(weights[1..], tieWordEmbeddings, params, cfg);
      var r0 := Route(weights[0], tieWordEmbeddings, params, cfg);
      var o := LoadOutcomeOf(weights[1..], tieWordEmbeddings, params, cfg);
      if r0.Ok? {
        if o.error.Some? {
          var j :| 0 <= j < |weights[1..]| && FirstError(weights[1..], tieWordEmbeddings, params, cfg, j, o.error.value);
          assert forall k :: 1 <= k < j + 1 ==> weights[k] == weights[1..][k - 1];
          assert FirstError(weights, tieWordEmbeddings, params, cfg, j + 1, o.error.value);
        } else {
          assert forall j :: 1 <= j < |weights| ==> weights[j] == weights[1..][j - 1];
        }
      } else {
        assert FirstError(weights, tieWordEmbeddings, params, cfg, 0, r0.error);
      }
    }
  }

  /** With embeddings tied, `lm_head.weight` is dropped: it shares the token embedding. */
  lemma TiedHeadSkipped<R>(weight: seq<R>, params: map<string, Param>, cfg: VisionConfig)
    ensures LoadOutcomeOf([NamedWeight("lm_head.weight", weight)], true, params, cfg) == LoadOutcome([], None)
  {
    assert StartsWith("lm_head.weight", "lm_head.weight");
  }
}
