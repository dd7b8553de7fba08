/**
 * How a model class that mixes in `SupportsQuant` finds the quantization
 * config among its constructor arguments and registers its packed-module
 * mapping into that shared config object.
 */
module QuantConfig {
  import opened Common

  /** A quantization config; its mapping is shared by every model built with it. */
  class QuantizationConfig {
    var packedModulesMapping: map<string, seq<string>>

    constructor (mapping: map<string, seq<string>>)
      ensures packedModulesMapping == mapping
    {
      packedModulesMapping := mapping;
    }
  }

  /** A constructor argument as `_find_quant_config` sees it. */
  datatype Arg =
    | VllmConfigArg(quantConfig: QuantizationConfig?)  // a VllmConfig; its quant_config may be None
    | QuantConfigArg(config: QuantizationConfig)       // a QuantizationConfig itself
    | OtherArg                                         // anything else

  /** `list(args) + list(kwargs.values())`, keyword arguments in insertion order. */
  function ArgsValues(args: seq<Arg>, kwargs: seq<(string, Arg)>): (vs: seq<Arg>)
    ensures |vs| == |args| + |kwargs|
    ensures vs[..|args|] == args
    ensures forall i :: 0 <= i < |kwargs| ==> vs[|args| + i] == kwargs[i].1
  {
    args + seq(|kwargs|, i requires 0 <= i < |kwargs| => kwargs[i].1)
  }

  /** The config the first VllmConfig or QuantizationConfig argument supplies,
      null when there is none. */
  function FoundConfig(vs: seq<Arg>): QuantizationConfig?
  {
    if vs == [] then null
    else match vs[0]
      case VllmConfigArg(q) => q
      case QuantConfigArg(c) => c
      case OtherArg => FoundConfig(vs[1..])
  }

  /** The first argument that is not OtherArg decides the result ... */
  lemma {:induction false} FoundConfigFirst(vs: seq<Arg>, j: nat)
    requires j < |vs| && !vs[j].OtherArg?
    requires forall k :: 0 <= k < j ==> vs[k].OtherArg?
    ensures FoundConfig(vs) == if vs[j].VllmConfigArg? then vs[j].quantConfig else vs[j].config
  {
    if j > 0 {
      FoundConfigFirst(vs[1..], j - 1);
    }
  }

  /** ... and without one the result is None. */
  lemma {:induction false} FoundConfigNone(vs: seq<Arg>)
    requires forall k :: 0 <= k < |vs| ==> vs[k].OtherArg?
    ensures FoundConfig(vs) == null
  {
    if vs != [] {
      FoundConfigNone(vs[1..]);
    }
  }

  /** `SupportsQuant._find_quant_config`: a scan of the positional, then the keyword arguments. */
  method FindQuantConfig(args: seq<Arg>, kwargs: seq<(string, Arg)>) returns (r: QuantizationConfig?)
    ensures r == FoundConfig(ArgsValues(args, kwargs))
  {
    var argsValues := ArgsValues(args, kwargs);
    var i := 0;
    while i < |argsValues|
      invariant i <= |argsValues|
      invariant FoundConfig(argsValues) == FoundConfig(argsValues[i..])
    {
      assert argsValues[i..][1..] == argsValues[i + 1..];
      match argsValues[i] {
        case VllmConfigArg(q) =>
          return q;
        case QuantConfigArg(c) =>
          return c;
        case OtherArg =>
      }
      i := i + 1;
    }
    return null;
  }

  /** `dict.update`: the update's keys take its values, every other key keeps its own. */
  function Update(m: map<string, seq<string>>, u: map<string, seq<string>>): (r: map<string, seq<string>>)
    ensures r.Keys == m.Keys + u.Keys
    ensures forall k :: k in u ==> r[k] == u[k]
    ensures forall k :: k in m && k !in u ==> r[k] == m[k]
  {
    m + u
  }

  /** Two updates in a row: the later one wins on the keys they share. */
  lemma UpdateTwice(m: map<string, seq<string>>, a: map<string, seq<string>>, b: map<string, seq<string>>)
    ensures Update(Update(m, a), b) == Update(m, Update(a, b))
  {
  }

  /** An instance of a model class that mixes in SupportsQuant. */
  class SupportsQuant {
    var quantConfig: QuantizationConfig?

    /**
     * `SupportsQuant.__new__`: the config found among the arguments is stored
     * by reference, and the class's `packed_modules_mapping` is merged into
     * its shared mapping in place. Without a config the attribute stays None.
     */
    constructor (classMapping: map<string, seq<string>>, args: seq<Arg>, kwargs: seq<(string, Arg)>)
      modifies FoundConfig(ArgsValues(args, kwargs))
      ensures quantConfig == FoundConfig(ArgsValues(args, kwargs))
      ensures var found := FoundConfig(ArgsValues(args, kwargs));
        found != null ==> found.packedModulesMapping == Update(old(found.packedModulesMapping), classMapping)
    {
      var config := FindQuantConfig(args, kwargs);
      quantConfig := config;
      new;
      if config != null {
        assert config.packedModulesMapping == old(config.packedModulesMapping);
        config.packedModulesMapping := Update(config.packedModulesMapping, classMapping);
      }
    }
  }

  /** Two models built on one config: both hold it, and its mapping gathers both
      class mappings, the later class winning on shared keys. */
  method TwoModelsShareConfig(config: QuantizationConfig, first: map<string, seq<string>>,
                              second: map<string, seq<string>>)
    returns (a: SupportsQuant, b: SupportsQuant)
    modifies config
    ensures a.quantConfig == config && b.quantConfig == config
    ensures config.packedModulesMapping == Update(old(config.packedModulesMapping), Update(first, second))
  {
    assert ArgsValues([QuantConfigArg(config)], []) == [QuantConfigArg(config)];
    a := new SupportsQuant(first, [QuantConfigArg(config)], []);
    assert ArgsValues([], [("quant_config", QuantConfigArg(config))]) == [QuantConfigArg(config)];
    b := new SupportsQuant(second, [], [("quant_config", QuantConfigArg(config))]);
    UpdateTwice(old(config.packedModulesMapping), first, second);
  }
}
