/**
 * The capability queries of the model interfaces. A runtime-checkable
 * Protocol `isinstance` check first asks whether the object is an instance of
 * the protocol by inheritance, and then passes. Otherwise it asks whether
 * every member of the protocol is present and, for a member the protocol
 * declares as a method, that it is not bound to `None`. It never looks at the
 * value a flag holds. The warnings the queries log are returned as values.
 */
module Capabilities {
  import opened Common

  /** The runtime-checkable protocol classes the queries test against; a
      `...Type` protocol is the one a query uses for a class object. */
  datatype Protocol =
    | MultiModal | MultiModalType | LoRA | LoRAType | PP | PPType
    | InnerState | InnerStateType | AttentionFree | AttentionFreeType
    | Hybrid | HybridType | NoOps | NoOpsType
    | CrossEncoding | Transcription | V0Only

  /**
   * What the queries can observe of a model class or instance:
   * - the protocols it is an instance of by inheritance: for an instance,
   *   those in its class's MRO; for a class object, those in its metaclass's;
   * - the names `hasattr` finds on it;
   * - the present attributes whose value is truthy;
   * - the present attributes whose value is `None`;
   * - the `forward` attribute;
   * - the two foreign predicates `supports_kw(forward, "intermediate_tensors")`
   *   and `is_pooling_model`, kept uninterpreted.
   */
  datatype ModelOrType = ModelOrType(
    isType: bool,
    inherits: set<Protocol>,
    attrs: set<string>,
    truthy: set<string>,
    noneValued: set<string>,
    forwardCallable: bool,
    forwardAcceptsIntermediateTensors: bool,
    isPoolingModel: bool)

  /** `getattr(model, name, False)` is truthy. */
  predicate Truthy(m: ModelOrType, name: string)
  {
    name in m.attrs && name in m.truthy
  }

  // ---- the protocols ----

  const MULTIMODAL_TYPE_MEMBERS: set<string> := {"supports_multimodal"}
  const MULTIMODAL_METHODS: set<string> := {"get_multimodal_embeddings", "get_language_model", "get_input_embeddings"}
  const MULTIMODAL_MEMBERS: set<string> := {"supports_multimodal"} + MULTIMODAL_METHODS

  const LORA_COMPANIONS: seq<string> := ["packed_modules_mapping", "embedding_modules", "embedding_padding_modules"]
  const LORA_MEMBERS: set<string> :=
    {"supports_lora", "packed_modules_mapping", "embedding_modules", "embedding_padding_modules"}

  const PP_COMPANIONS: seq<string> := ["make_empty_intermediate_tensors"]
  const PP_METHODS: set<string> := {"make_empty_intermediate_tensors", "forward"}
  const PP_MEMBERS: set<string> := {"supports_pp"} + PP_METHODS

  /** The members each protocol declares. */
  function ProtocolMembers(p: Protocol): set<string>
  {
    match p
    case MultiModal => MULTIMODAL_MEMBERS
    case MultiModalType => MULTIMODAL_TYPE_MEMBERS
    case LoRA | LoRAType => LORA_MEMBERS
    case PP | PPType => PP_MEMBERS
    case InnerState | InnerStateType => {"has_inner_state"}
    case AttentionFree | AttentionFreeType => {"is_attention_free"}
    case Hybrid | HybridType => {"is_hybrid"}
    case NoOps | NoOpsType => {"has_noops"}
    case CrossEncoding => {"supports_cross_encoding"}
    case Transcription => {"supports_transcription"}
    case V0Only => {"supports_v0_only"}
  }

  /** The members each protocol declares as methods. */
  function ProtocolMethods(p: Protocol): set<string>
  {
    match p
    case MultiModal => MULTIMODAL_METHODS
    case PP | PPType => PP_METHODS
    case _ => {}
  }

  /** Every member is present, and no member declared as a method is `None`. */
  predicate Implements(m: ModelOrType, members: set<string>, methods: set<string>)
  {
    members <= m.attrs && methods !! m.noneValued
  }

  /** A runtime-checkable Protocol `isinstance`: an instance by inheritance,
      or one by its members. */
  predicate Conforms(m: ModelOrType, p: Protocol)
  {
    p in m.inherits || Implements(m, ProtocolMembers(p), ProtocolMethods(p))
  }

  /** What every Python object satisfies: the members of an inherited protocol
      are inherited with it, so they are present (possibly as `None`). */
  predicate Consistent(m: ModelOrType)
  {
    forall p :: p in m.inherits ==> ProtocolMembers(p) <= m.attrs
  }

  /** For a protocol of data members only, inheritance adds nothing: on a
      consistent record the check is presence of the members. */
  lemma DataProtocolIsPresence(m: ModelOrType, p: Protocol)
    requires Consistent(m) && ProtocolMethods(p) == {}
    ensures Conforms(m, p) <==> ProtocolMembers(p) <= m.attrs
  {
  }

  // ---- supports_multimodal ----

  /** A class needs only the flag; an instance needs the three methods as well,
      none of them `None`, unless it inherits `SupportsMultiModal`. */
  function SupportsMultimodal(m: ModelOrType): (r: bool)
    ensures m.isType ==> (r <==> MultiModalType in m.inherits || "supports_multimodal" in m.attrs)
    ensures !m.isType ==> (r <==> MultiModal in m.inherits
                                  || ("supports_multimodal" in m.attrs && "get_multimodal_embeddings" in m.attrs
                                      && "get_language_model" in m.attrs && "get_input_embeddings" in m.attrs
                                      && "get_multimodal_embeddings" !in m.noneValued
                                      && "get_language_model" !in m.noneValued
                                      && "get_input_embeddings" !in m.noneValued))
    ensures m.isType && Consistent(m) ==> (r <==> "supports_multimodal" in m.attrs)
  {
    Conforms(m, if m.isType then MultiModalType else MultiModal)
  }

  /** With the same attributes, an instance that passes implies a class that passes ... */
  lemma MultimodalInstanceImpliesType(m: ModelOrType)
    requires Consistent(m) && !m.isType && SupportsMultimodal(m)
    ensures SupportsMultimodal(m.(isType := true))
  {
    if MultiModal in m.inherits {
      assert ProtocolMembers(MultiModal) <= m.attrs;
    }
  }

  /** ... but not the other way round: the two checks can disagree. */
  lemma MultimodalTypeNotInstance()
    ensures var m := ModelOrType(true, {}, {"supports_multimodal"}, {"supports_multimodal"}, {}, true, true, false);
      SupportsMultimodal(m) && !SupportsMultimodal(m.(isType := false))
  {
    var m := ModelOrType(false, {}, {"supports_multimodal"}, {"supports_multimodal"}, {}, true, true, false);
    assert "get_language_model" !in m.attrs;
  }

  /** An instance of a class that inherits `SupportsMultiModal` passes even with
      `get_language_model = None`; the same attributes without the inheritance fail. */
  lemma MultimodalInheritedNoneMethodPasses()
    ensures var m := ModelOrType(false, {MultiModal}, MULTIMODAL_MEMBERS, {"supports_multimodal"},
                                 {"get_language_model"}, true, true, false);
      Consistent(m) && SupportsMultimodal(m) && !SupportsMultimodal(m.(inherits := {}))
  {
    var m := ModelOrType(false, {MultiModal}, MULTIMODAL_MEMBERS, {"supports_multimodal"},
                         {"get_language_model"}, true, true, false);
    assert "get_language_model" in m.(inherits := {}).noneValued;
  }

  // ---- missing companions and warnings ----

  /** `tuple(attr for attr in attrs if not hasattr(model, attr))`. */
  function Missing(m: ModelOrType, names: seq<string>): (r: seq<string>)
    ensures |r| <= |names|
    ensures forall a :: a in r <==> a in names && a !in m.attrs
  {
    AbsentMembers(names, m.attrs);
    Absent(names, m.attrs)
  }

  /** The absent names keep their order: `Missing` filters each part of a list separately. */
  lemma MissingAppend(m: ModelOrType, a: seq<string>, b: seq<string>)
    ensures Missing(m, a + b) == Missing(m, a) + Missing(m, b)
  {
    AbsentAppend(a, b, m.attrs);
  }

  /** A single name is reported exactly when it is absent. */
  lemma MissingOne(m: ModelOrType, name: string)
    ensures Missing(m, [name]) == if name in m.attrs then [] else [name]
  {
    assert [name][1..] == [];
  }

  datatype Warning =
    | MissingAttributes(flag: string, missing: seq<string>)  // sets the flag, lacks companions
    | FlagNotSet(flag: string)                               // has all companions, lacks the flag
    | ForwardLacksIntermediateTensors                        // supports_pp without the keyword

  datatype Check = Check(result: bool, warning: Option<Warning>)

  /** The warning of a failed check: the flag is truthy but companions are
      missing, or the flag is not truthy but all companions are there. */
  function Diagnose(m: ModelOrType, flag: string, companions: seq<string>): Option<Warning>
  {
    var missing := Missing(m, companions);
    if Truthy(m, flag) then (if missing != [] then Some(MissingAttributes(flag, missing)) else None)
    else (if missing == [] then Some(FlagNotSet(flag)) else None)
  }

  // ---- supports_lora ----

  /** `_supports_lora`: a class and an instance are checked for the same four
      members (`_SupportsLoRAType` and `SupportsLoRA`). */
  function SupportsLoraCore(m: ModelOrType): (r: bool)
    ensures r <==> (if m.isType then LoRAType else LoRA) in m.inherits
                   || ("supports_lora" in m.attrs && "packed_modules_mapping" in m.attrs
                       && "embedding_modules" in m.attrs && "embedding_padding_modules" in m.attrs)
    ensures Consistent(m) ==> (r <==> LORA_MEMBERS <= m.attrs)
  {
    Conforms(m, if m.isType then LoRAType else LoRA)
  }

  /** `supports_lora`: the result of `_supports_lora`, and on failure the warning it logs. */
  function SupportsLora(m: ModelOrType): (c: Check)
    ensures c.result == SupportsLoraCore(m)
    ensures c.warning.Some? ==> !c.result
  {
    var result := SupportsLoraCore(m);
    Check(result, if result then None else Diagnose(m, "supports_lora", LORA_COMPANIONS))
  }

  /** A truthy flag that fails reports exactly the missing companions, in order, and
      there is at least one: a failure with a truthy flag is never silent. */
  lemma LoraTruthyFlagFailure(m: ModelOrType)
    requires Truthy(m, "supports_lora") && !SupportsLora(m).result
    ensures Missing(m, LORA_COMPANIONS) != []
    ensures SupportsLora(m).warning == Some(MissingAttributes("supports_lora", Missing(m, LORA_COMPANIONS)))
  {
  }

  /** With every companion present and the flag not truthy, the check fails with the
      "does not set the flag" warning exactly when the flag is absent and the
      protocol is not inherited. */
  lemma LoraFlagNotSet(m: ModelOrType)
    requires !Truthy(m, "supports_lora") && Missing(m, LORA_COMPANIONS) == []
    ensures SupportsLora(m) ==
      if "supports_lora" in m.attrs || (if m.isType then LoRAType else LoRA) in m.inherits then Check(true, None)
      else Check(false, Some(FlagNotSet("supports_lora")))
  {
    assert LORA_COMPANIONS[0] in LORA_COMPANIONS && LORA_COMPANIONS[1] in LORA_COMPANIONS
      && LORA_COMPANIONS[2] in LORA_COMPANIONS;
  }

  /** With the flag not truthy and a companion missing, nothing is logged; the check
      fails unless the protocol is inherited, and always fails on a consistent record. */
  lemma LoraFalsyFlagMissingCompanion(m: ModelOrType)
    requires !Truthy(m, "supports_lora") && Missing(m, LORA_COMPANIONS) != []
    ensures SupportsLora(m).warning == None
    ensures SupportsLora(m).result <==> (if m.isType then LoRAType else LoRA) in m.inherits
    ensures Consistent(m) ==> SupportsLora(m) == Check(false, None)
  {
    var absent := Missing(m, LORA_COMPANIONS)[0];
    assert absent in Missing(m, LORA_COMPANIONS);
    assert absent in LORA_MEMBERS && absent !in m.attrs;
  }

  /** Presence is all that counts: `supports_lora = False` with the companions still passes. */
  lemma LoraFalsyFlagPasses()
    ensures var m := ModelOrType(true, {}, LORA_MEMBERS, {}, {}, true, true, false);
      !Truthy(m, "supports_lora") && SupportsLora(m) == Check(true, None)
  {
  }

  // ---- supports_pp ----

  /** `_supports_pp_attributes`: the protocol is inherited, or the flag and the methods
      `make_empty_intermediate_tensors` and `forward` are present, neither of them `None`.
      A class and an instance are checked for the same members (`_SupportsPPType` and
      `SupportsPP`). */
  function SupportsPpAttributes(m: ModelOrType): (r: bool)
    ensures r <==> (if m.isType then PPType else PP) in m.inherits
                   || ("supports_pp" in m.attrs && "make_empty_intermediate_tensors" in m.attrs
                       && "forward" in m.attrs
                       && "make_empty_intermediate_tensors" !in m.noneValued && "forward" !in m.noneValued)
  {
    Conforms(m, if m.isType then PPType else PP)
  }

  /** `_supports_pp_inspect`: `forward` is present and callable and accepts the keyword. */
  function SupportsPpInspect(m: ModelOrType): (r: bool)
    ensures !("forward" in m.attrs && m.forwardCallable) ==> !r
    ensures "forward" in m.attrs && m.forwardCallable ==> (r <==> m.forwardAcceptsIntermediateTensors)
  {
    var forwardCallable := "forward" in m.attrs && m.forwardCallable;
    if !forwardCallable then false else m.forwardAcceptsIntermediateTensors
  }

  /** `supports_pp`: both checks; the keyword warning when only the inspection fails,
      the flag and companion warnings only when the attributes fail. */
  function SupportsPp(m: ModelOrType): (c: Check)
    ensures c.result <==> SupportsPpAttributes(m) && SupportsPpInspect(m)
    ensures c.warning == Some(ForwardLacksIntermediateTensors) <==> SupportsPpAttributes(m) && !SupportsPpInspect(m)
    ensures c.warning.Some? && c.warning != Some(ForwardLacksIntermediateTensors) ==> !SupportsPpAttributes(m)
    ensures c.warning.Some? ==> !c.result
  {
    var attributes := SupportsPpAttributes(m);
    var inspect := SupportsPpInspect(m);
    var warning :=
      if attributes && !inspect then Some(ForwardLacksIntermediateTensors)
      else if !attributes then Diagnose(m, "supports_pp", PP_COMPANIONS)
      else None;
    Check(attributes && inspect, warning)
  }

  /** The companion list omits `forward`: a model with a truthy flag and
      `make_empty_intermediate_tensors` but no `forward` fails without a warning. */
  lemma PpFailsSilentlyWithoutForward()
    ensures var m := ModelOrType(false, {}, {"supports_pp", "make_empty_intermediate_tensors"}, {"supports_pp"}, {},
                                 false, false, false);
      SupportsPp(m) == Check(false, None)
  {
    var m := ModelOrType(false, {}, {"supports_pp", "make_empty_intermediate_tensors"}, {"supports_pp"}, {},
                         false, false, false);
    assert Missing(m, PP_COMPANIONS[1..]) == [];
    assert Missing(m, PP_COMPANIONS) == [];
  }

  /** For an object whose class does not inherit `SupportsPP`, `forward = None` is a
      missing method for the protocol check, so a truthy flag with
      `make_empty_intermediate_tensors` fails without the keyword warning, and without any. */
  lemma PpNoneForwardFailsSilently()
    ensures var m := ModelOrType(false, {}, PP_MEMBERS, {"supports_pp"}, {"forward"}, false, false, false);
      !SupportsPpAttributes(m) && SupportsPp(m) == Check(false, None)
  {
    var m := ModelOrType(false, {}, PP_MEMBERS, {"supports_pp"}, {"forward"}, false, false, false);
    assert "forward" in PP_METHODS;
    assert Missing(m, PP_COMPANIONS[1..]) == [];
    assert Missing(m, PP_COMPANIONS) == [];
  }

  /** An instance of a class that inherits `SupportsPP` passes the attribute check even
      with `forward = None`, so the inspection fails and the keyword warning is logged. */
  lemma PpInheritedNoneForwardWarns()
    ensures var m := ModelOrType(false, {PP}, PP_MEMBERS, {"supports_pp"}, {"forward"}, false, false, false);
      Consistent(m) && SupportsPpAttributes(m)
      && SupportsPp(m) == Check(false, Some(ForwardLacksIntermediateTensors))
  {
  }

  // ---- single-flag queries ----

  /** The single-flag queries: a class and an instance both need only the flag, a data
      member, or the protocol by inheritance, which on a consistent record brings the flag. */
  function HasInnerState(m: ModelOrType): (r: bool)
    ensures r <==> (if m.isType then InnerStateType else InnerState) in m.inherits || "has_inner_state" in m.attrs
    ensures Consistent(m) ==> (r <==> "has_inner_state" in m.attrs)
  {
    Conforms(m, if m.isType then InnerStateType else InnerState)
  }

  function IsAttentionFree(m: ModelOrType): (r: bool)
    ensures r <==> (if m.isType then AttentionFreeType else AttentionFree) in m.inherits
                   || "is_attention_free" in m.attrs
    ensures Consistent(m) ==> (r <==> "is_attention_free" in m.attrs)
  {
    Conforms(m, if m.isType then AttentionFreeType else AttentionFree)
  }

  function IsHybrid(m: ModelOrType): (r: bool)
    ensures r <==> (if m.isType then HybridType else Hybrid) in m.inherits || "is_hybrid" in m.attrs
    ensures Consistent(m) ==> (r <==> "is_hybrid" in m.attrs)
  {
    Conforms(m, if m.isType then HybridType else Hybrid)
  }

  function HasNoops(m: ModelOrType): (r: bool)
    ensures r <==> (if m.isType then NoOpsType else NoOps) in m.inherits || "has_noops" in m.attrs
    ensures Consistent(m) ==> (r <==> "has_noops" in m.attrs)
  {
    Conforms(m, if m.isType then NoOpsType else NoOps)
  }

  /** `supports_transcription` and `supports_v0_only` use one protocol for a class and an instance. */
  function SupportsTranscription(m: ModelOrType): (r: bool)
    ensures r <==> Transcription in m.inherits || "supports_transcription" in m.attrs
    ensures Consistent(m) ==> (r <==> "supports_transcription" in m.attrs)
  {
    Conforms(m, Transcription)
  }

  function SupportsV0Only(m: ModelOrType): (r: bool)
    ensures r <==> V0Only in m.inherits || "supports_v0_only" in m.attrs
    ensures Consistent(m) ==> (r <==> "supports_v0_only" in m.attrs)
  {
    Conforms(m, V0Only)
  }

  /** `supports_cross_encoding`: a pooling model that passes `SupportsCrossEncoding`. */
  function SupportsCrossEncoding(m: ModelOrType): (r: bool)
    ensures r <==> m.isPoolingModel && (CrossEncoding in m.inherits || "supports_cross_encoding" in m.attrs)
    ensures Consistent(m) ==> (r <==> m.isPoolingModel && "supports_cross_encoding" in m.attrs)
  {
    m.isPoolingModel && Conforms(m, CrossEncoding)
  }

  /** On consistent records each single-flag query reads nothing but whether its flag
      is present: not the flag's value, not whether it is asked of a class or an
      instance, not which protocols are inherited. */
  lemma SingleFlagsOnlyReadPresence(m: ModelOrType, m': ModelOrType)
    requires Consistent(m) && Consistent(m')
    requires forall a :: a in m.attrs <==> a in m'.attrs
    ensures HasInnerState(m) == HasInnerState(m') && IsAttentionFree(m) == IsAttentionFree(m')
    ensures IsHybrid(m) == IsHybrid(m') && HasNoops(m) == HasNoops(m')
    ensures SupportsTranscription(m) == SupportsTranscription(m') && SupportsV0Only(m) == SupportsV0Only(m')
    ensures m.isPoolingModel == m'.isPoolingModel ==> SupportsCrossEncoding(m) == SupportsCrossEncoding(m')
  {
    assert m.attrs == m'.attrs;
  }
}
