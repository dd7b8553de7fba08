/**
 * How `Qwen2VLForConditionalGeneration.forward` fuses vision features into
 * the token embeddings: the rows of placeholder tokens are overwritten, in
 * order, by the rows the vision tower produced. Rows are abstract values.
 */
module EmbeddingFusion {
  import opened Common

  /** The text rows with the i-th placeholder row replaced by image row i. */
  function Fill<R>(ids: seq<int>, tok: int, text: seq<R>, image: seq<R>): (r: seq<R>)
    requires |text| == |ids| && Count(ids, tok) == |image|
    ensures |r| == |ids|
  {
    if ids == [] then []
    else if ids[0] == tok then [image[0]] + Fill(ids[1..], tok, text[1..], image[1..])
    else [text[0]] + Fill(ids[1..], tok, text[1..], image)
  }

  /** The rows of `rows` at placeholder positions, in order. */
  function Select<R>(ids: seq<int>, tok: int, rows: seq<R>): (r: seq<R>)
    requires |rows| == |ids|
    ensures |r| == Count(ids, tok)
  {
    if ids == [] then []
    else (if ids[0] == tok then [rows[0]] else []) + Select(ids[1..], tok, rows[1..])
  }

  /** Row i is the text row off a placeholder and, on the j-th placeholder, image row j. */
  lemma {:induction false} FillAt<R>(ids: seq<int>, tok: int, text: seq<R>, image: seq<R>, i: nat)
    requires |text| == |ids| && Count(ids, tok) == |image| && i < |ids|
    ensures ids[i] == tok ==> Count(ids[..i], tok) < |image|
    ensures Fill(ids, tok, text, image)[i] ==
      if ids[i] == tok then image[Count(ids[..i], tok)] else text[i]
  {
    if i > 0 {
      var tail := ids[1..];
      assert ids[..i][0] == ids[0] && ids[..i][1..] == tail[..i - 1];
      assert tail[i - 1] == ids[i];
      if ids[0] == tok {
        FillAt(tail, tok, text[1..], image[1..], i - 1);
        assert Fill(ids, tok, text, image)[i] == Fill(tail, tok, text[1..], image[1..])[i - 1];
      } else {
        FillAt(tail, tok, text[1..], image, i - 1);
        assert Fill(ids, tok, text, image)[i] == Fill(tail, tok, text[1..], image)[i - 1];
      }
    }
  }

  /** All image rows are used, once each and in order. */
  lemma {:induction false} SelectFill<R>(ids: seq<int>, tok: int, text: seq<R>, image: seq<R>)
    requires |text| == |ids| && Count(ids, tok) == |image|
    ensures Select(ids, tok, Fill(ids, tok, text, image)) == image
  {
    if ids != [] {
      var r := Fill(ids, tok, text, image);
      if ids[0] == tok {
        SelectFill(ids[1..], tok, text[1..], image[1..]);
        assert r[1..] == Fill(ids[1..], tok, text[1..], image[1..]);
      } else {
        SelectFill(ids[1..], tok, text[1..], image);
        assert r[1..] == Fill(ids[1..], tok, text[1..], image);
      }
    }
  }

  /**
   * `inputs_embeds[mask, :] = image_embeds` as written. The assignment also
   * broadcasts a single image row over every placeholder, so a one-row image
   * tensor is accepted whatever the placeholder count.
   */
  function MergeAsWritten<R>(ids: seq<int>, tok: int, text: seq<R>, image: seq<R>): (r: Option<seq<R>>)
    requires |text| == |ids|
    ensures r.Some? <==> |image| == Count(ids, tok) || |image| == 1
  {
    var n := Count(ids, tok);
    if |image| == n then Some(Fill(ids, tok, text, image))
    else if |image| == 1 then Some(Fill(ids, tok, text, Repeat(image[0], n)))
    else None
  }

  /** Two placeholders and one image row: the row is copied to both. */
  lemma MergeAsWrittenBroadcasts(a: int, b: int, x: int)
    ensures Count([7, 7], 7) == 2
    ensures MergeAsWritten([7, 7], 7, [a, b], [x]) == Some([x, x])
  {
    assert [7, 7][1..] == [7];
    assert Count([7, 7], 7) == 2;
    var ids, text := [7, 7], [a, b];
    assert Repeat(x, 2) == [x, x];
    assert ids[1..] == [7] && text[1..] == [b] && [x, x][1..] == [x];
    assert [7][1..] == [] && [b][1..] == [] && [x][1..] == [];
    assert Fill([7], 7, [b], [x]) == [x];
    assert Fill(ids, 7, text, [x, x]) == [x, x];
  }

  /** The intended merge: exactly one image row per placeholder, otherwise an error. */
  function Merge<R>(ids: seq<int>, tok: int, text: seq<R>, image: seq<R>): (r: Option<seq<R>>)
    requires |text| == |ids|
    ensures r.Some? <==> |image| == Count(ids, tok)
    ensures r.Some? ==> |r.value| == |ids| && Select(ids, tok, r.value) == image
  {
    if |image| == Count(ids, tok) then
      SelectFill(ids, tok, text, image);
      Some(Fill(ids, tok, text, image))
    else None
  }

  /** The mismatch the broadcast hides is an error for the intended merge. */
  lemma MergeRejectsBroadcast(a: int, b: int, x: int)
    ensures Merge([7, 7], 7, [a, b], [x]) == None
  {
    assert [7, 7][1..] == [7];
    assert Count([7, 7], 7) == 2;
  }

  // ---- the input selection of forward ----

  datatype LanguageModelInput<R> = TokenIds(ids: seq<int>) | InputsEmbeds(rows: seq<R>)

  datatype FusionError = PositionsShape | ImageRowsMismatch

  /** `_include_vision`: pixel values were passed and have at least one row. */
  predicate IncludeVision(pixelRows: Option<nat>)
  {
    pixelRows.Some? && pixelRows.value > 0
  }

  /** The token embeddings of `ids`, one row per position. */
  function Embedded<R>(ids: seq<int>, embed: int -> R): (text: seq<R>)
    ensures |text| == |ids| && forall i :: 0 <= i < |ids| ==> text[i] == embed(ids[i])
  {
    seq(|ids|, i requires 0 <= i < |ids| => embed(ids[i]))
  }

  /**
   * What forward hands the language model, as written. Without vision input,
   * the token ids; with it, after the mrope check on `positions` (its shape,
   * as a list of sizes), the embedded tokens with the image rows merged in by
   * the broadcasting assignment. The vision tower's output rows and the
   * embedding table are parameters.
   */
  function ForwardInput<R>(ids: seq<int>, positionsShape: seq<nat>, mrope: bool, pixelRows: Option<nat>,
                           visionTokenId: int, embed: int -> R, imageEmbeds: seq<R>)
    : (r: Result<LanguageModelInput<R>, FusionError>)
    ensures !IncludeVision(pixelRows) ==> r == Ok(TokenIds(ids))
    ensures IncludeVision(pixelRows) && mrope && !(|positionsShape| == 2 && positionsShape[0] == 3)
      ==> r == Err(PositionsShape)
    ensures IncludeVision(pixelRows) && !(mrope && !(|positionsShape| == 2 && positionsShape[0] == 3)) ==>
      (r == Err(ImageRowsMismatch) <==> |imageEmbeds| != Count(ids, visionTokenId) && |imageEmbeds| != 1)
    ensures r.Ok? && r.value.InputsEmbeds? ==>
      (|imageEmbeds| == Count(ids, visionTokenId) || |imageEmbeds| == 1) && |r.value.rows| == |ids|
  {
    if !IncludeVision(pixelRows) then Ok(TokenIds(ids))
    else if mrope && !(|positionsShape| == 2 && positionsShape[0] == 3) then Err(PositionsShape)
    else
      match MergeAsWritten(ids, visionTokenId, Embedded(ids, embed), imageEmbeds)
        case None => Err(ImageRowsMismatch)
        case Some(rows) => Ok(InputsEmbeds(rows))
  }

  /** Every position keeps its token's embedding; the j-th placeholder carries the
      j-th vision row, or the single vision row when one row is broadcast. */
  lemma ForwardInputRows<R>(ids: seq<int>, positionsShape: seq<nat>, mrope: bool, pixelRows: Option<nat>,
                            visionTokenId: int, embed: int -> R, imageEmbeds: seq<R>, i: nat)
    requires ForwardInput(ids, positionsShape, mrope, pixelRows, visionTokenId, embed, imageEmbeds).Ok?
    requires ForwardInput(ids, positionsShape, mrope, pixelRows, visionTokenId, embed, imageEmbeds).value.InputsEmbeds?
    requires i < |ids|
    ensures var rows := ForwardInput(ids, positionsShape, mrope, pixelRows, visionTokenId, embed, imageEmbeds).value.rows;
      && (ids[i] != visionTokenId ==> rows[i] == embed(ids[i]))
      && (ids[i] == visionTokenId && |imageEmbeds| == Count(ids, visionTokenId) ==>
            Count(ids[..i], visionTokenId) < |imageEmbeds| && rows[i] == imageEmbeds[Count(ids[..i], visionTokenId)])
      && (ids[i] == visionTokenId && |imageEmbeds| != Count(ids, visionTokenId) ==>
            |imageEmbeds| == 1 && rows[i] == imageEmbeds[0])
  {
    var text := Embedded(ids, embed);
    var n := Count(ids, visionTokenId);
    if |imageEmbeds| == n {
      FillAt(ids, visionTokenId, text, imageEmbeds, i);
    } else {
      FillAt(ids, visionTokenId, text, Repeat(imageEmbeds[0], n), i);
    }
  }

  /** Forward's two placeholders and one vision row: both positions get that row. */
  lemma ForwardInputBroadcasts(a: int, b: int, x: int)
    ensures ForwardInput([7, 7], [3, 2], true, Some(1), 7, (t: int) => if t == 7 then a else b, [x])
      == Ok(InputsEmbeds([x, x]))
  {
    var embed := (t: int) => if t == 7 then a else b;
    assert Embedded([7, 7], embed) == [a, a];
    MergeAsWrittenBroadcasts(a, a, x);
  }

  /** The intended forward input: the merge requires one vision row per placeholder. */
  function ForwardInputIntended<R>(ids: seq<int>, positionsShape: seq<nat>, mrope: bool, pixelRows: Option<nat>,
                                   visionTokenId: int, embed: int -> R, imageEmbeds: seq<R>)
    : (r: Result<LanguageModelInput<R>, FusionError>)
    ensures !IncludeVision(pixelRows) ==> r == Ok(TokenIds(ids))
    ensures IncludeVision(pixelRows) && mrope && !(|positionsShape| == 2 && positionsShape[0] == 3)
      ==> r == Err(PositionsShape)
    ensures IncludeVision(pixelRows) && !(mrope && !(|positionsShape| == 2 && positionsShape[0] == 3)) ==>
      (r == Err(ImageRowsMismatch) <==> |imageEmbeds| != Count(ids, visionTokenId))
    ensures r.Ok? && r.value.InputsEmbeds? ==>
      |imageEmbeds| == Count(ids, visionTokenId) && |r.value.rows| == |ids|
      && Select(ids, visionTokenId, r.value.rows) == imageEmbeds
  {
    if !IncludeVision(pixelRows) then Ok(TokenIds(ids))
    else if mrope && !(|positionsShape| == 2 && positionsShape[0] == 3) then Err(PositionsShape)
    else
      match Merge(ids, visionTokenId, Embedded(ids, embed), imageEmbeds)
        case None => Err(ImageRowsMismatch)
        case Some(rows) => Ok(InputsEmbeds(rows))
  }

  /** With the intended merge, the j-th placeholder always carries the j-th vision row. */
  lemma ForwardInputIntendedRows<R>(ids: seq<int>, positionsShape: seq<nat>, mrope: bool, pixelRows: Option<nat>,
                                    visionTokenId: int, embed: int -> R, imageEmbeds: seq<R>, i: nat)
    requires ForwardInputIntended(ids, positionsShape, mrope, pixelRows, visionTokenId, embed, imageEmbeds).Ok?
    requires ForwardInputIntended(ids, positionsShape, mrope, pixelRows, visionTokenId, embed, imageEmbeds).value.InputsEmbeds?
    requires i < |ids|
    ensures var rows := ForwardInputIntended(ids, positionsShape, mrope, pixelRows, visionTokenId, embed, imageEmbeds).value.rows;
      && (ids[i] != visionTokenId ==> rows[i] == embed(ids[i]))
      && (ids[i] == visionTokenId ==>
            Count(ids[..i], visionTokenId) < |imageEmbeds| && rows[i] == imageEmbeds[Count(ids[..i], visionTokenId)])
  {
    FillAt(ids, visionTokenId, Embedded(ids, embed), imageEmbeds, i);
  }
}
