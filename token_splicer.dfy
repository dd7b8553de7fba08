/**
 * The Qwen2-VL input-processing hook: it rewrites a prompt's token ids so
 * that each vision placeholder token stands for as many placeholder tokens
 * as the image yields visual tokens after spatial merging.
 */
module TokenSplicer {
  import opened Common
  import opened Grids

  /** What the prompt carries under the "image" key: one image, a list of images,
      or a mapping holding the image objects together with extra vision infos. */
  datatype ImageObjects = SingleImage(image: nat) | ImageList(images: seq<nat>)
  datatype VisionInput =
    | Objects(objects: ImageObjects)
    | WithInfos(imageObjects: ImageObjects, visionInfos: seq<nat>)

  /** Output of the external image processor; the pixel payload is abstract. */
  datatype ProcessedVision = ProcessedVision(visionGridThw: seq<Grid>, pixelValues: seq<nat>)

  /** A value stored in the multimodal-data dictionary. A processed batch is a
      mapping without the "vision_infos" key. */
  datatype MultiModalItem = Raw(input: VisionInput) | Processed(processed: ProcessedVision)

  datatype LLMInputs = LLMInputs(
    promptTokenIds: seq<int>,
    prompt: Option<string>,
    multiModalData: Option<map<string, MultiModalItem>>)

  datatype SpliceError =
    | MissingKey(key: string)          // KeyError on a processed batch
    | ProcessorFailed                  // the image processor raised
    | CountMismatch(imageTokens: nat, grids: nat)   // the assertion on the image count

  /** Python truthiness of the image objects: only an empty list is falsy. */
  predicate IsEmpty(objs: ImageObjects)
  {
    objs.ImageList? && objs.images == []
  }

  /**
   * Specification of the splice: the i-th placeholder of `s` becomes `lens[i]`
   * placeholders and every other token is kept. The input processor only uses
   * it with exactly one length per placeholder; placeholders beyond the given
   * lengths would be kept as they are.
   */
  function Expand(s: seq<int>, tok: int, lens: seq<nat>): seq<int>
    decreases |s|
  {
    if s == [] then []
    else if s[0] == tok && lens != [] then Repeat(tok, lens[0]) + Expand(s[1..], tok, lens[1..])
    else [s[0]] + Expand(s[1..], tok, lens)
  }

  /** `s.index(x, from)`: the first position at or after `from` holding `x`
      (None where Python raises ValueError). */
  function IndexFrom(s: seq<int>, x: int, from: nat): (r: Option<nat>)
    ensures r.Some? ==> from <= r.value < |s| && s[r.value] == x
    decreases |s| - from
  {
    if from >= |s| then None
    else if s[from] == x then Some(from)
    else IndexFrom(s, x, from + 1)
  }

  /** `index` finds the first occurrence, and fails only when there is none. */
  lemma {:induction false} IndexFromIsFirst(s: seq<int>, x: int, from: nat)
    ensures IndexFrom(s, x, from).Some? ==> forall j :: from <= j < IndexFrom(s, x, from).value ==> s[j] != x
    ensures IndexFrom(s, x, from).None? <==> forall j :: from <= j < |s| ==> s[j] != x
    decreases |s| - from
  {
    if from < |s| && s[from] != x {
      IndexFromIsFirst(s, x, from + 1);
    }
  }

  /** When a placeholder remains after `from`, `index` finds it, and it splits the
      remaining count into none before it and the rest after it. */
  lemma {:induction false} IndexFromSplit(s: seq<int>, x: int, from: nat)
    requires from <= |s| && Count(s[from..], x) > 0
    ensures IndexFrom(s, x, from).Some?
    ensures var e := IndexFrom(s, x, from).value;
      Count(s[from..e], x) == 0 && Count(s[e + 1..], x) == Count(s[from..], x) - 1
    decreases |s| - from
  {
    assert s[from..] == [s[from]] + s[from + 1..];
    if s[from] != x {
      IndexFromSplit(s, x, from + 1);
      var e := IndexFrom(s, x, from + 1).value;
      assert s[from..e] == [s[from]] + s[from + 1..e];
    } else {
      assert s[from..from] == [];
    }
  }

  lemma ExpandCons(x: int, s: seq<int>, tok: int, lens: seq<nat>)
    requires x != tok
    ensures Expand([x] + s, tok, lens) == [x] + Expand(s, tok, lens)
  {
    assert ([x] + s)[1..] == s;
  }

  lemma ExpandPlaceholder(s: seq<int>, tok: int, lens: seq<nat>)
    requires lens != []
    ensures Expand([tok] + s, tok, lens) == Repeat(tok, lens[0]) + Expand(s, tok, lens[1..])
  {
    assert ([tok] + s)[1..] == s;
  }

  /** A placeholder-free prefix is copied verbatim. */
  lemma {:induction false} ExpandFree(g: seq<int>, rest: seq<int>, tok: int, lens: seq<nat>)
    requires Count(g, tok) == 0
    ensures Expand(g + rest, tok, lens) == g + Expand(rest, tok, lens)
    decreases |g|
  {
    if g == [] {
      assert g + rest == rest;
    } else {
      var g1 := g[1..];
      assert g == [g[0]] + g1;
      ExpandFree(g1, rest, tok, lens);
      assert g + rest == [g[0]] + (g1 + rest);
      ExpandCons(g[0], g1 + rest, tok, lens);
    }
  }

  /** Splitting at the first placeholder: the gap before it, then its expansion. */
  lemma ExpandAt(s: seq<int>, tok: int, lens: seq<nat>, k: nat)
    requires k < |s| && s[k] == tok && Count(s[..k], tok) == 0 && lens != []
    ensures Expand(s, tok, lens) == s[..k] + Repeat(tok, lens[0]) + Expand(s[k + 1..], tok, lens[1..])
  {
    assert s == s[..k] + ([tok] + s[k + 1..]);
    ExpandFree(s[..k], [tok] + s[k + 1..], tok, lens);
    ExpandPlaceholder(s[k + 1..], tok, lens);
  }

  /** The unprocessed suffix from `start`, whose first placeholder is at `end`,
      expands to the gap, that placeholder's block and the expansion after it. */
  lemma SuffixExpand(inputIds: seq<int>, tok: int, lens: seq<nat>, start: nat, end: nat, imageIdx: nat)
    requires start <= end < |inputIds| && inputIds[end] == tok && imageIdx < |lens|
    requires Count(inputIds[start..end], tok) == 0
    ensures Expand(inputIds[start..], tok, lens[imageIdx..])
         == inputIds[start..end] + Repeat(tok, lens[imageIdx]) + Expand(inputIds[end + 1..], tok, lens[imageIdx + 1..])
  {
    var rest, k := inputIds[start..], end - start;
    assert rest[..k] == inputIds[start..end];
    assert rest[k + 1..] == inputIds[end + 1..];
    ExpandAt(rest, tok, lens[imageIdx..], k);
    assert lens[imageIdx..][1..] == lens[imageIdx + 1..];
  }

  lemma ConcatAssoc(a: seq<int>, b: seq<int>, c: seq<int>, d: seq<int>)
    ensures a + (b + c + d) == a + b + c + d
  {
  }

  /** What one iteration of the splice loop consumes and produces: the gap up to
      the next placeholder and that placeholder's expansion move from the
      unprocessed suffix to the output built so far. */
  lemma SpliceStep(inputIds: seq<int>, tok: int, lens: seq<nat>, start: nat, imageIdx: nat, acc: seq<int>)
    returns (end: nat)
    requires start <= |inputIds| && imageIdx < |lens|
    requires Count(inputIds[start..], tok) == |lens| - imageIdx
    requires acc + Expand(inputIds[start..], tok, lens[imageIdx..]) == Expand(inputIds, tok, lens)
    ensures IndexFrom(inputIds, tok, start) == Some(end) && start <= end < |inputIds|
    ensures Count(inputIds[end + 1..], tok) == |lens| - (imageIdx + 1)
    ensures acc + inputIds[start..end] + Repeat(tok, lens[imageIdx]) + Expand(inputIds[end + 1..], tok, lens[imageIdx + 1..])
         == Expand(inputIds, tok, lens)
  {
    IndexFromSplit(inputIds, tok, start);
    end := IndexFrom(inputIds, tok, start).value;
    SuffixExpand(inputIds, tok, lens, start, end, imageIdx);
    ConcatAssoc(acc, inputIds[start..end], Repeat(tok, lens[imageIdx]), Expand(inputIds[end + 1..], tok, lens[imageIdx + 1..]));
  }

  /**
   * The splice loop of the input processor: walk the placeholders with a
   * `start` cursor, copy the gap before each one and append its expansion.
   */
  method SpliceTokens(inputIds: seq<int>, tok: int, lens: seq<nat>) returns (newIds: seq<int>)
    requires Count(inputIds, tok) == |lens|
    ensures newIds == Expand(inputIds, tok, lens)
  {
    newIds := [];
    var start := 0;
    var imageIdx := 0;
    assert inputIds[0..] == inputIds && lens[0..] == lens;
    while imageIdx < |lens|
      invariant 0 <= imageIdx <= |lens| && start <= |inputIds|
      invariant Count(inputIds[start..], tok) == |lens| - imageIdx
      invariant newIds + Expand(inputIds[start..], tok, lens[imageIdx..]) == Expand(inputIds, tok, lens)
    {
      ghost var next := SpliceStep(inputIds, tok, lens, start, imageIdx, newIds);
      var end := IndexFrom(inputIds, tok, start).value;
      assert end == next;
      newIds := newIds + inputIds[start..end] + Repeat(tok, lens[imageIdx]);
      start := end + 1;
      imageIdx := imageIdx + 1;
    }
    var rest := inputIds[start..];
    assert lens[imageIdx..] == [];
    ExpandFree(rest, [], tok, []);
    assert rest + [] == rest;
    newIds := newIds + rest;
  }

  /**
   * input_processor_for_qwen2_vl. The processor's configuration (merge size,
   * vision token id) and the result of calling the external image processor on
   * the image objects are parameters; None stands for the processor raising.
   */
  method InputProcessorForQwen2VL(
    inputs: LLMInputs, mergeSize: nat, visionTokenId: int, processorOutput: Option<ProcessedVision>)
    returns (r: Result<LLMInputs, SpliceError>)
    requires mergeSize > 0
    // no multimodal data, or no "image" key: the inputs come back unchanged
    ensures inputs.multiModalData.None? || "image" !in inputs.multiModalData.value ==> r == Ok(inputs)
    ensures inputs.multiModalData.Some? && "image" in inputs.multiModalData.value ==>
      var item := inputs.multiModalData.value["image"];
      var objs := if item.Raw? then (if item.input.Objects? then item.input.objects else item.input.imageObjects)
                  else ImageList([]);
      var ids := inputs.promptTokenIds;
      if item.Processed? then r == Err(MissingKey("vision_infos"))
      // an empty image list: same token ids, multimodal data cleared
      else if IsEmpty(objs) then r == Ok(LLMInputs(ids, inputs.prompt, None))
      else if processorOutput.None? then r == Err(ProcessorFailed)
      else
        var grids := processorOutput.value.visionGridThw;
        // the count check: one placeholder per grid entry, otherwise no output
        if Count(ids, visionTokenId) != |grids| then r == Err(CountMismatch(Count(ids, visionTokenId), |grids|))
        else r == Ok(LLMInputs(
          Expand(ids, visionTokenId, VisionLens(grids, mergeSize)),
          inputs.prompt,
          if |grids| > 0 then Some(map["image" := Processed(processorOutput.value)]) else None))
  {
    if inputs.multiModalData.None? || "image" !in inputs.multiModalData.value {
      return Ok(inputs);
    }
    var item := inputs.multiModalData.value["image"];
    var imageObjects;
    match item {
      case Processed(_) =>
        return Err(MissingKey("vision_infos"));
      case Raw(Objects(objs)) =>
        imageObjects := objs;
      case Raw(WithInfos(objs, _)) =>
        imageObjects := objs;
    }
    if IsEmpty(imageObjects) {
      return Ok(LLMInputs(inputs.promptTokenIds, inputs.prompt, None));
    }
    if processorOutput.None? {
      return Err(ProcessorFailed);
    }
    var processed := processorOutput.value;
    var grids := processed.visionGridThw;
    var inputIds := inputs.promptTokenIds;
    var imgNum := Count(inputIds, visionTokenId);
    if |grids| != imgNum {
      return Err(CountMismatch(imgNum, |grids|));
    }
    var lens := VisionLens(grids, mergeSize);
    var newIds := SpliceTokens(inputIds, visionTokenId, lens);
    var mmData := if imgNum > 0 then Some(map["image" := Processed(processed)]) else None;
    return Ok(LLMInputs(newIds, inputs.prompt, mmData));
  }

  // ---- Properties of the splice ----

  /** Output length: every placeholder is replaced by its expansion. */
  lemma {:induction false} ExpandLength(s: seq<int>, tok: int, lens: seq<nat>)
    requires Count(s, tok) == |lens|
    ensures |Expand(s, tok, lens)| == |s| - |lens| + Sum(lens)
    decreases |s|
  {
    if s != [] {
      if s[0] == tok {
        ExpandLength(s[1..], tok, lens[1..]);
      } else {
        ExpandLength(s[1..], tok, lens);
      }
    }
  }

  /** The output holds exactly as many placeholders as all expansions together. */
  lemma {:induction false} ExpandCount(s: seq<int>, tok: int, lens: seq<nat>)
    requires Count(s, tok) == |lens|
    ensures Count(Expand(s, tok, lens), tok) == Sum(lens)
    decreases |s|
  {
    if s != [] {
      if s[0] == tok {
        ExpandCount(s[1..], tok, lens[1..]);
        CountRepeat(tok, lens[0]);
        CountAppend(Repeat(tok, lens[0]), Expand(s[1..], tok, lens[1..]), tok);
      } else {
        ExpandCount(s[1..], tok, lens);
        CountAppend([s[0]], Expand(s[1..], tok, lens), tok);
      }
    }
  }

  /** Deleting the placeholders from the output gives the input without its placeholders. */
  lemma {:induction false} ExpandKeepsOtherTokens(s: seq<int>, tok: int, lens: seq<nat>)
    ensures Without(Expand(s, tok, lens), tok) == Without(s, tok)
    decreases |s|
  {
    if s != [] {
      if s[0] == tok && lens != [] {
        ExpandKeepsOtherTokens(s[1..], tok, lens[1..]);
        CountRepeat(tok, lens[0]);
        WithoutAppend(Repeat(tok, lens[0]), Expand(s[1..], tok, lens[1..]), tok);
      } else {
        ExpandKeepsOtherTokens(s[1..], tok, lens);
        WithoutAppend([s[0]], Expand(s[1..], tok, lens), tok);
      }
    }
  }

  /** gaps[0] ++ tok^ks[0] ++ gaps[1] ++ ... ++ tok^ks[n-1] ++ gaps[n]. */
  function Assemble(gaps: seq<seq<int>>, tok: int, ks: seq<nat>): seq<int>
    requires |gaps| == |ks| + 1
    decreases |ks|
  {
    if ks == [] then gaps[0]
    else gaps[0] + Repeat(tok, ks[0]) + Assemble(gaps[1..], tok, ks[1..])
  }

  function Ones(n: nat): (r: seq<nat>)
    ensures |r| == n && forall i :: 0 <= i < n ==> r[i] == 1
  {
    seq(n, _ => 1)
  }

  /**
   * The splice in block form: a prompt made of placeholder-free gaps separated
   * by single placeholders has one placeholder per length, and comes out with
   * each gap copied verbatim and the i-th placeholder replaced by exactly
   * lens[i] placeholders.
   */
  lemma {:induction false} ExpandBlocks(gaps: seq<seq<int>>, tok: int, lens: seq<nat>)
    requires |gaps| == |lens| + 1
    requires forall i :: 0 <= i < |gaps| ==> tok !in gaps[i]
    ensures Count(Assemble(gaps, tok, Ones(|lens|)), tok) == |lens|
    ensures Expand(Assemble(gaps, tok, Ones(|lens|)), tok, lens) == Assemble(gaps, tok, lens)
    decreases |lens|
  {
    CountZero(gaps[0], tok);
    if lens == [] {
      ExpandFree(gaps[0], [], tok, []);
      assert gaps[0] + [] == gaps[0];
    } else {
      var ones := Ones(|lens|);
      assert ones[1..] == Ones(|lens| - 1);
      ExpandBlocks(gaps[1..], tok, lens[1..]);
      var rest := Assemble(gaps[1..], tok, ones[1..]);
      assert Repeat(tok, 1) == [tok];
      assert Assemble(gaps, tok, ones) == gaps[0] + ([tok] + rest);
      CountAppend([tok], rest, tok);
      CountAppend(gaps[0], [tok] + rest, tok);
      ExpandFree(gaps[0], [tok] + rest, tok, lens);
      ExpandPlaceholder(rest, tok, lens);
    }
  }

  /** With every expansion equal to one the prompt is unchanged. */
  lemma {:induction false} ExpandByOne(s: seq<int>, tok: int)
    ensures Expand(s, tok, Ones(Count(s, tok))) == s
    decreases |s|
  {
    if s != [] {
      var n := Count(s, tok);
      ExpandByOne(s[1..], tok);
      if s[0] == tok {
        assert Ones(n)[1..] == Ones(n - 1);
        assert Repeat(tok, 1) == [tok];
      }
      assert s == [s[0]] + s[1..];
    }
  }

  /** A splice example: merge factor 1, two 1x2x2 grids. */
  lemma SpliceExample()
    ensures Count([1, 1, 99, 2, 99, 3], 99) == 2
    ensures VisionLens([Grid(1, 2, 2), Grid(1, 2, 2)], 1) == [4, 4]
    ensures Expand([1, 1, 99, 2, 99, 3], 99, [4, 4]) == [1, 1, 99, 99, 99, 99, 2, 99, 99, 99, 99, 3]
  {
    ExampleLens();
    ExampleExpand();
  }

  lemma ExampleLens()
    ensures VisionLens([Grid(1, 2, 2), Grid(1, 2, 2)], 1) == [4, 4]
  {
    assert VisionLen(Grid(1, 2, 2), 1) == 4;
  }

  lemma ExampleExpand()
    ensures Expand([1, 1, 99, 2, 99, 3], 99, [4, 4]) == [1, 1, 99, 99, 99, 99, 2, 99, 99, 99, 99, 3]
  {
    ExampleHead();
    ExampleTail();
    var block := Repeat(99, 4);
    assert block == [99, 99, 99, 99];
  }

  lemma ExampleHead()
    ensures Expand([1, 1, 99, 2, 99, 3], 99, [4, 4]) == [1, 1] + Expand([99, 2, 99, 3], 99, [4, 4])
  {
    ExpandCons(1, [99, 2, 99, 3], 99, [4, 4]);
    ExpandCons(1, [1, 99, 2, 99, 3], 99, [4, 4]);
    assert [1] + ([1] + [99, 2, 99, 3]) == [1, 1, 99, 2, 99, 3];
  }

  lemma ExampleTail()
    ensures Expand([99, 2, 99, 3], 99, [4, 4]) == Repeat(99, 4) + [2] + Repeat(99, 4) + [3]
  {
    ExpandCons(3, [], 99, []);
    ExpandPlaceholder([3], 99, [4]);
    assert [4][1..] == [];
    ExpandCons(2, [99, 3], 99, [4]);
    ExpandPlaceholder([2, 99, 3], 99, [4, 4]);
    assert [4, 4][1..] == [4];
  }
}
