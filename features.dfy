/**
 * `Feature`, `Variation` and `VariationVariable` of the engine's types: each
 * a constructor that reads named members of a JSON object (throwing when a
 * required one is missing) and a `stringify` that writes them back.
 *
 * The feature's `configuration` is read by `FeatureConfiguration`, whose
 * source is not part of this model; its reader and writer are passed in as a
 * `ConfigurationCodec`.
 */
module Features {
  import opened Wrappers
  import opened Json
  import opened Targeting

  datatype FeatureType = Release | Experiment | Permission | Ops

  /** `validTypes`: the only accepted values of a feature's `type`. */
  const ValidTypes: seq<string> := ["release", "experiment", "permission", "ops"]

  function TypeName(t: FeatureType): (r: string)
    ensures r in ValidTypes
  {
    match t
    case Release => "release"
    case Experiment => "experiment"
    case Permission => "permission"
    case Ops => "ops"
  }

  function TypeFromName(s: string): (r: Option<FeatureType>)
    ensures r.Some? <==> s in ValidTypes
    ensures r.Some? ==> TypeName(r.value) == s
  {
    if s == "release" then Some(Release)
    else if s == "experiment" then Some(Experiment)
    else if s == "permission" then Some(Permission)
    else if s == "ops" then Some(Ops)
    else None
  }

  lemma TypeNameRoundTrip(t: FeatureType)
    ensures TypeFromName(TypeName(t)) == Some(t)
  {
  }

  /** `isValidString(feature, 'type', validTypes)`: a string member that must be one of the valid types. */
  function GetFeatureType(o: Json, k: string): (r: Result<FeatureType, ParseError>)
    ensures r.Ok? <==> o.JObj? && k in o.fields && o.fields[k].JStr? && o.fields[k].s in ValidTypes
    ensures r.Ok? ==> o.fields[k] == JStr(TypeName(r.value))
  {
    match GetString(o, k)
    case Err(e) => Err(e)
    case Ok(s) =>
      match TypeFromName(s)
      case None => Err(InvalidField(k))
      case Some(t) => Ok(t)
  }

  /** One variable override of a variation: the variable's id and its raw value. */
  datatype VariationVariable = VariationVariable(variableId: string, value: Json)

  /** A variation; `name` is optional. */
  datatype Variation = Variation(id: string, name: Option<string>, variables: seq<VariationVariable>)

  datatype Feature = Feature(
    id: string,
    ftype: FeatureType,
    key: string,
    variations: seq<Variation>,
    configuration: FeatureConfiguration)

  datatype ConfigurationCodec = ConfigurationCodec(
    parse: Json -> Result<FeatureConfiguration, ParseError>,
    emit: FeatureConfiguration -> Json)

  // ---------------------------------------------------------------- VariationVariable

  /** Reads `_var` (a string) and `value` (any JSON value, kept as is). */
  function ParseVariationVariable(j: Json): (r: Result<VariationVariable, ParseError>)
    ensures r.Ok? <==> j.JObj? && "_var" in j.fields && j.fields["_var"].JStr? && "value" in j.fields
    ensures r.Ok? ==> j.fields["_var"] == JStr(r.value.variableId) && r.value.value == j.fields["value"]
  {
    match GetString(j, "_var")
    case Err(e) => Err(e)
    case Ok(id) =>
      match GetValue(j, "value")
      case Err(e) => Err(e)
      case Ok(v) => Ok(VariationVariable(id, v))
  }

  function EmitVariationVariable(v: VariationVariable): (r: Json)
    ensures r.JObj? && r.keys == ["_var", "value"]
    ensures r.fields == map["_var" := JStr(v.variableId), "value" := v.value]
  {
    Set(Set(EmptyObj, "_var", JStr(v.variableId)), "value", v.value)
  }

  lemma VariationVariableRoundTrip(v: VariationVariable)
    ensures ParseVariationVariable(EmitVariationVariable(v)) == Ok(v)
  {
  }

  // ---------------------------------------------------------------- Variation

  /**
   * Reads `_id`, the optional `name` (kept only when it is a string) and the
   * `variables` array, in order.
   */
  function ParseVariation(j: Json): (r: Result<Variation, ParseError>)
    ensures r.Ok? ==> j.JObj? && "_id" in j.fields && j.fields["_id"] == JStr(r.value.id)
    ensures r.Ok? ==> (r.value.name.Some? <==> "name" in j.fields && j.fields["name"].JStr?)
    ensures r.Ok? && r.value.name.Some? ==> j.fields["name"] == JStr(r.value.name.value)
    ensures r.Ok? ==> "variables" in j.fields && j.fields["variables"].JArr?
                      && |r.value.variables| == |j.fields["variables"].items|
    ensures r.Ok? ==> forall i :: 0 <= i < |r.value.variables| ==>
                        ParseVariationVariable(j.fields["variables"].items[i]) == Ok(r.value.variables[i])
  {
    match GetString(j, "_id")
    case Err(e) => Err(e)
    case Ok(id) =>
      var name := if "name" in j.fields && j.fields["name"].JStr? then Some(j.fields["name"].s) else None;
      match GetArray(j, "variables")
      case Err(e) => Err(e)
      case Ok(items) =>
        match ParseAll(items, ParseVariationVariable)
        case Err(e) => Err(e)
        case Ok(vars) => Ok(Variation(id, name, vars))
  }

  /** Whether `stringify` writes the name: an AssemblyScript string is truthy only when non-empty. */
  predicate NameWritten(name: Option<string>)
  {
    name.Some? && name.value != ""
  }

  function EmitVariation(v: Variation): (r: Json)
    ensures r.JObj?
    ensures r.keys == if NameWritten(v.name) then ["_id", "name", "variables"] else ["_id", "variables"]
    ensures "name" in r.fields <==> NameWritten(v.name)
  {
    var withId := Set(EmptyObj, "_id", JStr(v.id));
    var withName := if NameWritten(v.name) then Set(withId, "name", JStr(v.name.value)) else withId;
    Set(withName, "variables", JArr(EmitAll(v.variables, EmitVariationVariable)))
  }

  lemma VariationRoundTrip(v: Variation)
    requires v.name != Some("")
    ensures ParseVariation(EmitVariation(v)) == Ok(v)
  {
    forall i | 0 <= i < |v.variables|
      ensures ParseVariationVariable(EmitVariationVariable(v.variables[i])) == Ok(v.variables[i])
    {
      VariationVariableRoundTrip(v.variables[i]);
    }
    ParseAllEmitAll(v.variables, ParseVariationVariable, EmitVariationVariable);
  }

  /** A variation named "" is written without a name, so it comes back unnamed. */
  lemma EmptyNameComesBackUnnamed(v: Variation)
    requires v.name == Some("")
    ensures ParseVariation(EmitVariation(v)) == Ok(v.(name := None))
  {
    forall i | 0 <= i < |v.variables|
      ensures ParseVariationVariable(EmitVariationVariable(v.variables[i])) == Ok(v.variables[i])
    {
      VariationVariableRoundTrip(v.variables[i]);
    }
    ParseAllEmitAll(v.variables, ParseVariationVariable, EmitVariationVariable);
  }

  // ---------------------------------------------------------------- Feature

  /** Reads `_id`, `type`, `key`, `variations` (in order) and `configuration`, in that order. */
  function ParseFeature(j: Json, codec: ConfigurationCodec): (r: Result<Feature, ParseError>)
    ensures r.Ok? ==> j.JObj? && "_id" in j.fields && j.fields["_id"] == JStr(r.value.id)
    ensures r.Ok? ==> "key" in j.fields && j.fields["key"] == JStr(r.value.key)
    ensures r.Ok? ==> "type" in j.fields && j.fields["type"] == JStr(TypeName(r.value.ftype))
    ensures r.Ok? ==> "variations" in j.fields && j.fields["variations"].JArr?
                      && |r.value.variations| == |j.fields["variations"].items|
    ensures r.Ok? ==> forall i :: 0 <= i < |r.value.variations| ==>
                        ParseVariation(j.fields["variations"].items[i]) == Ok(r.value.variations[i])
    ensures r.Ok? ==> "configuration" in j.fields && j.fields["configuration"].JObj?
                      && codec.parse(j.fields["configuration"]) == Ok(r.value.configuration)
    ensures r.Ok? <==> && j.JObj?
                       && "_id" in j.fields && j.fields["_id"].JStr?
                       && "type" in j.fields && j.fields["type"].JStr? && j.fields["type"].s in ValidTypes
                       && "key" in j.fields && j.fields["key"].JStr?
                       && "variations" in j.fields && j.fields["variations"].JArr?
                       && ParseAll(j.fields["variations"].items, ParseVariation).Ok?
                       && "configuration" in j.fields && j.fields["configuration"].JObj?
                       && codec.parse(j.fields["configuration"]).Ok?
    ensures j.JObj? && "type" in j.fields && j.fields["type"].JStr? && j.fields["type"].s !in ValidTypes ==> r.Err?
  {
    match GetString(j, "_id")
    case Err(e) => Err(e)
    case Ok(id) =>
      match GetFeatureType(j, "type")
      case Err(e) => Err(e)
      case Ok(t) =>
        match GetString(j, "key")
        case Err(e) => Err(e)
        case Ok(key) =>
          match GetArray(j, "variations")
          case Err(e) => Err(e)
          case Ok(items) =>
            match ParseAll(items, ParseVariation)
            case Err(e) => Err(e)
            case Ok(variations) =>
              match GetObj(j, "configuration")
              case Err(e) => Err(e)
              case Ok(c) =>
                match codec.parse(c)
                case Err(e) => Err(e)
                case Ok(configuration) => Ok(Feature(id, t, key, variations, configuration))
  }

  function EmitFeature(f: Feature, codec: ConfigurationCodec): (r: Json)
    ensures r.JObj? && r.keys == ["_id", "type", "key", "variations", "configuration"]
    ensures r.fields == map["_id" := JStr(f.id), "type" := JStr(TypeName(f.ftype)), "key" := JStr(f.key),
                            "variations" := JArr(EmitAll(f.variations, EmitVariation)),
                            "configuration" := codec.emit(f.configuration)]
  {
    var o := Set(EmptyObj, "_id", JStr(f.id));
    var o := Set(o, "type", JStr(TypeName(f.ftype)));
    var o := Set(o, "key", JStr(f.key));
    var o := Set(o, "variations", JArr(EmitAll(f.variations, EmitVariation)));
    Set(o, "configuration", codec.emit(f.configuration))
  }

  /** The feature's parts that its writer can write back faithfully. */
  predicate Writable(f: Feature, codec: ConfigurationCodec)
  {
    && codec.emit(f.configuration).JObj?
    && codec.parse(codec.emit(f.configuration)) == Ok(f.configuration)
    && forall i :: 0 <= i < |f.variations| ==> f.variations[i].name != Some("")
  }

  /** Writing a feature out and reading it back gives the same feature. */
  lemma FeatureRoundTrip(f: Feature, codec: ConfigurationCodec)
    requires Writable(f, codec)
    ensures ParseFeature(EmitFeature(f, codec), codec) == Ok(f)
  {
    VariationsRoundTrip(f.variations);
    EmittedFeatureMembers(f, codec);
    ParseFeatureOfParts(EmitFeature(f, codec), codec, EmitAll(f.variations, EmitVariation),
                        codec.emit(f.configuration), f);
  }

  /** A `variations` array of named or unnamed variations reads back as the same variations. */
  lemma VariationsRoundTrip(variations: seq<Variation>)
    requires forall i :: 0 <= i < |variations| ==> variations[i].name != Some("")
    ensures ParseAll(EmitAll(variations, EmitVariation), ParseVariation) == Ok(variations)
  {
    forall i | 0 <= i < |variations|
      ensures ParseVariation(EmitVariation(variations[i])) == Ok(variations[i])
    {
      VariationRoundTrip(variations[i]);
    }
    ParseAllEmitAll(variations, ParseVariation, EmitVariation);
  }

  /** Each member of a written feature reads back as what was written there. */
  lemma EmittedFeatureMembers(f: Feature, codec: ConfigurationCodec)
    requires codec.emit(f.configuration).JObj?
    ensures var j := EmitFeature(f, codec);
            && GetString(j, "_id") == Ok(f.id)
            && GetFeatureType(j, "type") == Ok(f.ftype)
            && GetString(j, "key") == Ok(f.key)
            && GetArray(j, "variations") == Ok(EmitAll(f.variations, EmitVariation))
            && GetObj(j, "configuration") == Ok(codec.emit(f.configuration))
  {
    TypeNameRoundTrip(f.ftype);
  }

  /** The reader succeeds with `f` when each member reads as the matching part of `f`. */
  lemma ParseFeatureOfParts(j: Json, codec: ConfigurationCodec, items: seq<Json>, c: Json, f: Feature)
    requires GetString(j, "_id") == Ok(f.id)
    requires GetFeatureType(j, "type") == Ok(f.ftype)
    requires GetString(j, "key") == Ok(f.key)
    requires GetArray(j, "variations") == Ok(items) && ParseAll(items, ParseVariation) == Ok(f.variations)
    requires GetObj(j, "configuration") == Ok(c) && codec.parse(c) == Ok(f.configuration)
    ensures ParseFeature(j, codec) == Ok(f)
  {
  }
}
