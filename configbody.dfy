/**
 * `ConfigBody`: the whole project config the engine buckets against, read
 * from a JSON object and written back by `stringify`.
 *
 * The `Variable` reader and writer are not part of this model and are passed
 * in; so is the `FeatureConfiguration` codec the features need.
 */
module ConfigBodies {
  import opened Wrappers
  import opened Json
  import opened Targeting
  import opened Features

  /** `PublicProject` and `PublicEnvironment` have the same two members. */
  datatype PublicEntity = PublicEntity(id: string, key: string)
  type PublicProject = PublicEntity
  type PublicEnvironment = PublicEntity

  datatype VariableCodec = VariableCodec(
    parse: Json -> Result<Variable, ParseError>,
    emit: Variable -> Json)

  datatype ElementCodecs = ElementCodecs(configuration: ConfigurationCodec, variable: VariableCodec)

  /** A `Map<string, number>`: its keys in insertion order, and the value of each. */
  datatype HashMap = HashMap(keys: seq<string>, values: map<string, real>)

  datatype ConfigBody = ConfigBody(
    project: PublicProject,
    environment: PublicEnvironment,
    features: seq<Feature>,
    variables: seq<Variable>,
    variableHashes: HashMap)

  // ---------------------------------------------------------------- project and environment

  function ParsePublic(j: Json): (r: Result<PublicEntity, ParseError>)
    ensures r.Ok? <==> j.JObj? && "_id" in j.fields && j.fields["_id"].JStr?
                       && "key" in j.fields && j.fields["key"].JStr?
    ensures r.Ok? ==> j.fields["_id"] == JStr(r.value.id) && j.fields["key"] == JStr(r.value.key)
  {
    match GetString(j, "_id")
    case Err(e) => Err(e)
    case Ok(id) =>
      match GetString(j, "key")
      case Err(e) => Err(e)
      case Ok(key) => Ok(PublicEntity(id, key))
  }

  function EmitPublic(p: PublicEntity): (r: Json)
    ensures r.JObj? && r.keys == ["_id", "key"]
    ensures r.fields == map["_id" := JStr(p.id), "key" := JStr(p.key)]
  {
    Set(Set(EmptyObj, "_id", JStr(p.id)), "key", JStr(p.key))
  }

  lemma PublicRoundTrip(p: PublicEntity)
    ensures ParsePublic(EmitPublic(p)) == Ok(p)
  {
  }

  /** Members other than `_id` and `key` are not read. */
  lemma PublicIgnoresOtherMembers(j: Json, k: string, v: Json)
    requires j.JObj? && k != "_id" && k != "key"
    ensures ParsePublic(Set(j, k, v)) == ParsePublic(j)
  {
  }

  // ---------------------------------------------------------------- variableHashes

  predicate Distinct(ks: seq<string>)
  {
    forall i, j :: 0 <= i < j < |ks| ==> ks[i] != ks[j]
  }

  /** Each key listed once, and the listed keys are exactly the keys that hold a value. */
  predicate WellFormed(m: HashMap)
  {
    && Distinct(m.keys)
    && (forall k :: k in m.values ==> k in m.keys)
    && (forall k :: k in m.keys ==> k in m.values)
  }

  const EmptyMap: HashMap := HashMap([], map[])

  /** `Map.set`: a key already present keeps its place and takes the new value; a new key goes last. */
  function MapSet(m: HashMap, k: string, v: real): (r: HashMap)
    ensures r.values == m.values[k := v]
    ensures r.keys == if k in m.values then m.keys else m.keys + [k]
  {
    HashMap(if k in m.values then m.keys else m.keys + [k], m.values[k := v])
  }

  predicate HashReadable(k: string, fields: map<string, Json>)
  {
    k in fields && fields[k].JNum?
  }

  /**
   * What the hash loop is meant to compute: each key of the object, in
   * order, set to its number, failing on the first key whose value is not a
   * number.
   */
  function HashesFrom(keys: seq<string>, fields: map<string, Json>): (r: Result<HashMap, ParseError>)
    ensures r.Err? ==> r.error.UnreadableHash? && r.error.key in keys && !HashReadable(r.error.key, fields)
    decreases |keys|
  {
    if |keys| == 0 then Ok(EmptyMap)
    else
      match HashesFrom(keys[..|keys| - 1], fields)
      case Err(e) => Err(e)
      case Ok(prev) =>
        var k := keys[|keys| - 1];
        if HashReadable(k, fields) then Ok(MapSet(prev, k, fields[k].n)) else Err(UnreadableHash(k))
  }

  /** Reading fails exactly when some key has no number, and then it names the first such key. */
  lemma {:induction false} HashesFromFailsOnFirstUnreadable(keys: seq<string>, fields: map<string, Json>)
    ensures HashesFrom(keys, fields).Ok? <==> forall i :: 0 <= i < |keys| ==> HashReadable(keys[i], fields)
    ensures HashesFrom(keys, fields).Err? ==>
              exists i :: 0 <= i < |keys| && !HashReadable(keys[i], fields)
                          && HashesFrom(keys, fields).error == UnreadableHash(keys[i])
                          && forall j :: 0 <= j < i ==> HashReadable(keys[j], fields)
    decreases |keys|
  {
    if |keys| > 0 {
      var init := keys[..|keys| - 1];
      var last := keys[|keys| - 1];
      HashesFromFailsOnFirstUnreadable(init, fields);
      assert forall i :: 0 <= i < |init| ==> init[i] == keys[i];
      if HashesFrom(init, fields).Err? {
        var i :| 0 <= i < |init| && !HashReadable(init[i], fields)
                 && HashesFrom(init, fields).error == UnreadableHash(init[i])
                 && forall j :: 0 <= j < i ==> HashReadable(init[j], fields);
        assert HashesFrom(keys, fields) == HashesFrom(init, fields);
        assert !HashReadable(keys[i], fields);
      } else if !HashReadable(last, fields) {
        assert HashesFrom(keys, fields) == Err(UnreadableHash(keys[|keys| - 1]));
      }
    }
  }

  /** With readable values, the read succeeds. */
  lemma {:induction false} HashesFromOk(keys: seq<string>, fields: map<string, Json>)
    requires forall i :: 0 <= i < |keys| ==> HashReadable(keys[i], fields)
    ensures HashesFrom(keys, fields).Ok?
    decreases |keys|
  {
    if |keys| > 0 {
      var init := keys[..|keys| - 1];
      assert forall i :: 0 <= i < |init| ==> init[i] == keys[i];
      HashesFromOk(init, fields);
    }
  }

  /** A key of the object is read with its own number. */
  lemma {:induction false} HashesFromValueAt(keys: seq<string>, fields: map<string, Json>, k: string)
    requires forall i :: 0 <= i < |keys| ==> HashReadable(keys[i], fields)
    requires k in keys
    ensures HashesFrom(keys, fields).Ok?
    ensures k in HashesFrom(keys, fields).value.values
    ensures k in fields && fields[k] == JNum(HashesFrom(keys, fields).value.values[k])
    decreases |keys|
  {
    var init := keys[..|keys| - 1];
    var last := keys[|keys| - 1];
    assert forall i :: 0 <= i < |init| ==> init[i] == keys[i];
    HashesFromOk(init, fields);
    if k != last {
      assert keys == init + [last];
      HashesFromValueAt(init, fields, k);
    }
  }

  /** Only keys of the object are read. */
  lemma {:induction false} HashesFromKeysWithin(keys: seq<string>, fields: map<string, Json>, k: string)
    requires HashesFrom(keys, fields).Ok? && k in HashesFrom(keys, fields).value.values
    ensures k in keys
    decreases |keys|
  {
    if |keys| > 0 {
      var init := keys[..|keys| - 1];
      var last := keys[|keys| - 1];
      assert HashesFrom(init, fields).Ok? && HashReadable(last, fields);
      var prev := HashesFrom(init, fields).value;
      assert HashesFrom(keys, fields).value.values == prev.values[last := fields[last].n];
      if k != last {
        assert k in prev.values;
        HashesFromKeysWithin(init, fields, k);
        assert keys == init + [last];
      }
    }
  }

  /** With readable values, every key is read with its own number, and no other key is. */
  lemma HashesFromReadsEveryKey(keys: seq<string>, fields: map<string, Json>)
    requires forall i :: 0 <= i < |keys| ==> keys[i] in fields && fields[keys[i]].JNum?
    ensures HashesFrom(keys, fields).Ok?
    ensures forall i :: 0 <= i < |keys| ==>
              keys[i] in HashesFrom(keys, fields).value.values
              && HashesFrom(keys, fields).value.values[keys[i]] == fields[keys[i]].n
    ensures forall k :: k in HashesFrom(keys, fields).value.values ==> k in keys
  {
    HashesFromOk(keys, fields);
    forall i | 0 <= i < |keys|
      ensures keys[i] in HashesFrom(keys, fields).value.values
      ensures HashesFrom(keys, fields).value.values[keys[i]] == fields[keys[i]].n
    {
      HashesFromValueAt(keys, fields, keys[i]);
    }
    forall k | k in HashesFrom(keys, fields).value.values
      ensures k in keys
    {
      HashesFromKeysWithin(keys, fields, k);
    }
  }

  /** Dropping the last of distinct keys leaves distinct keys, none of them the dropped one. */
  lemma DistinctInit(keys: seq<string>)
    requires |keys| > 0 && Distinct(keys)
    ensures Distinct(keys[..|keys| - 1]) && keys[|keys| - 1] !in keys[..|keys| - 1]
  {
    var init := keys[..|keys| - 1];
    forall i | 0 <= i < |init|
      ensures init[i] != keys[|keys| - 1]
    {
      assert init[i] == keys[i];
    }
  }

  /** Distinct keys keep their order. */
  lemma {:induction false} HashesFromKeepsOrder(keys: seq<string>, fields: map<string, Json>)
    requires forall i :: 0 <= i < |keys| ==> keys[i] in fields && fields[keys[i]].JNum?
    requires Distinct(keys)
    ensures HashesFrom(keys, fields).Ok? && HashesFrom(keys, fields).value.keys == keys
    decreases |keys|
  {
    if |keys| > 0 {
      var init := keys[..|keys| - 1];
      var last := keys[|keys| - 1];
      DistinctInit(keys);
      assert forall i :: 0 <= i < |init| ==> init[i] == keys[i];
      HashesFromKeepsOrder(init, fields);
      var prev := HashesFrom(init, fields).value;
      if last in prev.values {
        HashesFromKeysWithin(init, fields, last);
      }
      assert HashesFrom(keys, fields) == Ok(MapSet(prev, last, fields[last].n));
      assert init + [last] == keys;
    }
  }

  /** Once a prefix fails, reading the rest does not change the error. */
  lemma {:induction false} HashesFromErrorPersists(keys: seq<string>, fields: map<string, Json>, n: nat)
    requires n <= |keys| && HashesFrom(keys[..n], fields).Err?
    ensures HashesFrom(keys, fields) == HashesFrom(keys[..n], fields)
    decreases |keys| - n
  {
    if n < |keys| {
      var init := keys[..|keys| - 1];
      assert init[..n] == keys[..n];
      HashesFromErrorPersists(init, fields, n);
    } else {
      assert keys[..n] == keys;
    }
  }

  /**
   * The hash loop as it is meant to run: `for (let i = 0; i < keys.length; i++)`.
   */
  method ParseVariableHashes(o: Json) returns (r: Result<HashMap, ParseError>)
    requires o.JObj?
    ensures r == HashesFrom(o.keys, o.fields)
  {
    var keys := o.keys;
    var entries := EmptyMap;
    for i := 0 to |keys|
      invariant HashesFrom(keys[..i], o.fields) == Ok(entries)
    {
      var key := keys[i];
      assert keys[..i + 1][..i] == keys[..i];
      if !(key in o.fields && o.fields[key].JNum?) {
        HashesFromErrorPersists(keys, o.fields, i + 1);
        return Err(UnreadableHash(key));
      }
      entries := MapSet(entries, key, o.fields[key].n);
    }
    assert keys[..|keys|] == keys;
    return Ok(entries);
  }

  /**
   * The hash loop as written, `for (let i = init; i++; i < keys.length)`,
   * with its initialiser `init` as a parameter (0 in the source). The
   * condition is the old value of `i`, and `i < keys.length` is the update
   * expression, which has no effect. Reading past the end of `keys` throws.
   */
  method HashLoopAsWritten(o: Json, init: int) returns (r: Result<HashMap, ParseError>)
    requires o.JObj?
    ensures init == 0 ==> r == Ok(EmptyMap)
  {
    var keys := o.keys;
    var entries := EmptyMap;
    var i := init;
    var condition := i;
    i := i + 1;
    while condition != 0
      invariant init == 0 ==> condition == 0 && entries == EmptyMap
      decreases |keys| - i
    {
      if !(0 <= i < |keys|) {
        return Err(IndexOutOfRange(i));
      }
      var key := keys[i];
      if !(key in o.fields && o.fields[key].JNum?) {
        return Err(UnreadableHash(key));
      }
      entries := MapSet(entries, key, o.fields[key].n);
      condition := i;
      i := i + 1;
    }
    return Ok(entries);
  }

  /** The source's loop: it reads no hash at all, whatever the object holds. */
  method ParseVariableHashesAsWritten(o: Json) returns (r: Result<HashMap, ParseError>)
    requires o.JObj?
    ensures r == Ok(EmptyMap)
  {
    r := HashLoopAsWritten(o, 0);
  }

  /** An object with one readable hash, which the loop as written drops. */
  lemma HashLoopDropsReadableHash()
    ensures HashesFrom(["flag"], map["flag" := JNum(7.5)]) == Ok(HashMap(["flag"], map["flag" := 7.5]))
    ensures HashesFrom(["flag"], map["flag" := JNum(7.5)]) != Ok(EmptyMap)
  {
    var keys: seq<string> := ["flag"];
    assert keys[..0] == [];
    assert HashesFrom(keys[..0], map["flag" := JNum(7.5)]) == Ok(EmptyMap);
    assert EmptyMap.keys + ["flag"] == ["flag"];
  }

  /** A `Map<string, number>` written as an object, key by key in insertion order. */
  function EmitHashes(m: HashMap): (r: Json)
    ensures r.JObj? && r.keys == m.keys
    ensures forall k :: k in r.fields <==> k in m.values
    ensures forall k :: k in m.values ==> r.fields[k] == JNum(m.values[k])
  {
    JObj(m.keys, map k | k in m.values :: JNum(m.values[k]))
  }

  lemma HashesRoundTrip(m: HashMap)
    requires WellFormed(m)
    ensures HashesFrom(EmitHashes(m).keys, EmitHashes(m).fields) == Ok(m)
  {
    var o := EmitHashes(m);
    assert forall i :: 0 <= i < |o.keys| ==> HashReadable(o.keys[i], o.fields);
    HashesFromKeepsOrder(o.keys, o.fields);
    var r := HashesFrom(o.keys, o.fields).value;
    forall k | k in m.values
      ensures k in r.values && r.values[k] == m.values[k]
    {
      HashesFromValueAt(o.keys, o.fields, k);
    }
    forall k | k in r.values
      ensures k in m.values
    {
      HashesFromKeysWithin(o.keys, o.fields, k);
    }
    assert r.values == m.values;
  }

  // ---------------------------------------------------------------- the whole body

  /** `Feature.fromJSON` as the element reader of the `features` array. */
  function FeatureReader(codec: ConfigurationCodec): Json -> Result<Feature, ParseError>
  {
    (f: Json) => ParseFeature(f, codec)
  }

  /** `Feature.stringify` as the element writer of the `features` array. */
  function FeatureWriter(codec: ConfigurationCodec): Feature -> Json
  {
    (f: Feature) => EmitFeature(f, codec)
  }

  /** What the constructor has read before its hash loop: four members, and the `variableHashes` object. */
  datatype BodyMembers = BodyMembers(
    project: PublicProject,
    environment: PublicEnvironment,
    features: seq<Feature>,
    variables: seq<Variable>,
    hashObject: Json)

  /**
   * Reads, in order, `project`, `environment`, `features`, `variables` and
   * the `variableHashes` object; the first member that cannot be read fails
   * the whole body.
   */
  function ReadMembers(j: Json, codecs: ElementCodecs): (r: Result<BodyMembers, ParseError>)
    ensures r.Ok? ==> j.JObj? && "project" in j.fields && ParsePublic(j.fields["project"]) == Ok(r.value.project)
    ensures r.Ok? ==> "environment" in j.fields && ParsePublic(j.fields["environment"]) == Ok(r.value.environment)
    ensures r.Ok? ==> "features" in j.fields && j.fields["features"].JArr?
                      && |r.value.features| == |j.fields["features"].items|
                      && forall i :: 0 <= i < |r.value.features| ==>
                           ParseFeature(j.fields["features"].items[i], codecs.configuration) == Ok(r.value.features[i])
    ensures r.Ok? ==> "variables" in j.fields && j.fields["variables"].JArr?
                      && |r.value.variables| == |j.fields["variables"].items|
                      && forall i :: 0 <= i < |r.value.variables| ==>
                           codecs.variable.parse(j.fields["variables"].items[i]) == Ok(r.value.variables[i])
    ensures r.Ok? ==> "variableHashes" in j.fields && j.fields["variableHashes"] == r.value.hashObject
                      && r.value.hashObject.JObj?
  {
    match GetObj(j, "project")
    case Err(e) => Err(e)
    case Ok(pj) =>
      match ParsePublic(pj)
      case Err(e) => Err(e)
      case Ok(project) =>
        match GetObj(j, "environment")
        case Err(e) => Err(e)
        case Ok(ej) =>
          match ParsePublic(ej)
          case Err(e) => Err(e)
          case Ok(environment) =>
            match GetArray(j, "features")
            case Err(e) => Err(e)
            case Ok(fitems) =>
              match ParseAll(fitems, FeatureReader(codecs.configuration))
              case Err(e) => Err(e)
              case Ok(features) =>
                match GetArray(j, "variables")
                case Err(e) => Err(e)
                case Ok(vitems) =>
                  match ParseAll(vitems, codecs.variable.parse)
                  case Err(e) => Err(e)
                  case Ok(variables) =>
                    match GetObj(j, "variableHashes")
                    case Err(e) => Err(e)
                    case Ok(h) => Ok(BodyMembers(project, environment, features, variables, h))
  }

  /**
   * The corrected constructor: the members as `ReadMembers` reads them, and
   * the hashes as the loop is meant to read them (`HashesFrom`, which
   * `ParseVariableHashes` implements).
   */
  function ParseConfigBody(j: Json, codecs: ElementCodecs): (r: Result<ConfigBody, ParseError>)
    ensures r.Ok? ==> j.JObj? && "project" in j.fields && ParsePublic(j.fields["project"]) == Ok(r.value.project)
    ensures r.Ok? ==> "environment" in j.fields && ParsePublic(j.fields["environment"]) == Ok(r.value.environment)
    ensures r.Ok? ==> "features" in j.fields && j.fields["features"].JArr?
                      && |r.value.features| == |j.fields["features"].items|
                      && forall i :: 0 <= i < |r.value.features| ==>
                           ParseFeature(j.fields["features"].items[i], codecs.configuration) == Ok(r.value.features[i])
    ensures r.Ok? ==> "variables" in j.fields && j.fields["variables"].JArr?
                      && |r.value.variables| == |j.fields["variables"].items|
                      && forall i :: 0 <= i < |r.value.variables| ==>
                           codecs.variable.parse(j.fields["variables"].items[i]) == Ok(r.value.variables[i])
    ensures r.Ok? ==> "variableHashes" in j.fields && j.fields["variableHashes"].JObj?
                      && HashesFrom(j.fields["variableHashes"].keys, j.fields["variableHashes"].fields)
                         == Ok(r.value.variableHashes)
  {
    match ReadMembers(j, codecs)
    case Err(e) => Err(e)
    case Ok(m) =>
      match HashesFrom(m.hashObject.keys, m.hashObject.fields)
      case Err(e) => Err(e)
      case Ok(hashes) => Ok(ConfigBody(m.project, m.environment, m.features, m.variables, hashes))
  }

  /**
   * What the constructor as written builds: the same four members, and an
   * empty hash map, since its hash loop never runs. Only the members it
   * reads can make it fail; the content of `variableHashes` cannot.
   */
  function ConfigBodyAsWritten(j: Json, codecs: ElementCodecs): (r: Result<ConfigBody, ParseError>)
    ensures r.Ok? <==> ReadMembers(j, codecs).Ok?
    ensures r.Ok? ==> r.value.variableHashes == EmptyMap
    ensures r.Err? ==> r == ParseConfigBody(j, codecs)
    ensures r.Ok? ==> var m := ReadMembers(j, codecs).value;
                      && r.value.project == m.project && r.value.environment == m.environment
                      && r.value.features == m.features && r.value.variables == m.variables
  {
    match ReadMembers(j, codecs)
    case Err(e) => Err(e)
    case Ok(m) => Ok(ConfigBody(m.project, m.environment, m.features, m.variables, EmptyMap))
  }

  /** The `ConfigBody` constructor as written: the members read in order, then the hash loop that never runs. */
  method ParseConfigBodyAsWritten(j: Json, codecs: ElementCodecs) returns (r: Result<ConfigBody, ParseError>)
    ensures r == ConfigBodyAsWritten(j, codecs)
  {
    var members := ReadMembers(j, codecs);
    if members.Err? {
      return Err(members.error);
    }
    var m := members.value;
    var hashes := ParseVariableHashesAsWritten(m.hashObject);
    return Ok(ConfigBody(m.project, m.environment, m.features, m.variables, hashes.value));
  }

  /**
   * Wherever the corrected constructor succeeds, the one as written succeeds
   * with the same body minus its hashes; wherever the one as written fails,
   * both fail alike.
   */
  lemma AsWrittenDropsOnlyHashes(j: Json, codecs: ElementCodecs)
    ensures ParseConfigBody(j, codecs).Ok? ==>
              ConfigBodyAsWritten(j, codecs) == Ok(ParseConfigBody(j, codecs).value.(variableHashes := EmptyMap))
    ensures ConfigBodyAsWritten(j, codecs).Err? ==> ParseConfigBody(j, codecs) == ConfigBodyAsWritten(j, codecs)
  {
  }

  /** Replacing the `variableHashes` object leaves every other member as it was read. */
  lemma ReadMembersOfOtherHashes(j: Json, codecs: ElementCodecs, h: Json)
    requires GetObj(j, "variableHashes").Ok? && h.JObj?
    ensures ReadMembers(Set(j, "variableHashes", h), codecs)
            == match ReadMembers(j, codecs)
               case Err(e) => Err(e)
               case Ok(m) => Ok(m.(hashObject := h))
  {
    var j' := Set(j, "variableHashes", h);
    assert GetObj(j', "project") == GetObj(j, "project");
    assert GetObj(j', "environment") == GetObj(j, "environment");
    assert GetArray(j', "features") == GetArray(j, "features");
    assert GetArray(j', "variables") == GetArray(j, "variables");
    assert GetObj(j', "variableHashes") == Ok(h);
  }

  /** No content of the `variableHashes` object changes what the constructor as written returns. */
  lemma AsWrittenIgnoresHashContent(j: Json, codecs: ElementCodecs, h: Json)
    requires GetObj(j, "variableHashes").Ok? && h.JObj?
    ensures ConfigBodyAsWritten(Set(j, "variableHashes", h), codecs) == ConfigBodyAsWritten(j, codecs)
  {
    ReadMembersOfOtherHashes(j, codecs, h);
  }

  /**
   * On a body whose other members read, a hash object `{"flag": 7.5}` gives
   * the corrected constructor one hash and the one as written none, and
   * `{"flag": "x"}` fails the corrected constructor but not the one as
   * written.
   */
  lemma AsWrittenDiffersFromCorrected(j: Json, codecs: ElementCodecs)
    requires ReadMembers(j, codecs).Ok?
    ensures ReadMembers(j, codecs).value.hashObject == JObj(["flag"], map["flag" := JNum(7.5)]) ==>
              && ParseConfigBody(j, codecs).Ok?
              && ParseConfigBody(j, codecs).value.variableHashes == HashMap(["flag"], map["flag" := 7.5])
              && ConfigBodyAsWritten(j, codecs).value.variableHashes == EmptyMap
    ensures ReadMembers(j, codecs).value.hashObject == JObj(["flag"], map["flag" := JStr("x")]) ==>
              && ParseConfigBody(j, codecs) == Err(UnreadableHash("flag"))
              && ConfigBodyAsWritten(j, codecs).Ok?
  {
    var keys: seq<string> := ["flag"];
    assert keys[..0] == [];
    HashLoopDropsReadableHash();
  }

  /**
   * The write-then-read round trip through the constructor as written gives
   * back the body with its hashes emptied, so it holds exactly for bodies
   * with no hashes.
   */
  lemma ConfigBodyRoundTripAsWritten(c: ConfigBody, codecs: ElementCodecs)
    requires Writable(c, codecs)
    ensures ConfigBodyAsWritten(EmitConfigBody(c, codecs), codecs) == Ok(c.(variableHashes := EmptyMap))
    ensures ConfigBodyAsWritten(EmitConfigBody(c, codecs), codecs) == Ok(c) <==> c.variableHashes == EmptyMap
  {
    ConfigBodyRoundTrip(c, codecs);
    AsWrittenDropsOnlyHashes(EmitConfigBody(c, codecs), codecs);
  }

  function EmitConfigBody(c: ConfigBody, codecs: ElementCodecs): (r: Json)
    ensures r.JObj? && r.keys == ["project", "environment", "features", "variables", "variableHashes"]
    ensures r.fields == map[
              "project" := EmitPublic(c.project),
              "environment" := EmitPublic(c.environment),
              "features" := JArr(EmitAll(c.features, FeatureWriter(codecs.configuration))),
              "variables" := JArr(EmitAll(c.variables, codecs.variable.emit)),
              "variableHashes" := EmitHashes(c.variableHashes)]
  {
    var o := Set(EmptyObj, "project", EmitPublic(c.project));
    var o := Set(o, "environment", EmitPublic(c.environment));
    var o := Set(o, "features", JArr(EmitAll(c.features, FeatureWriter(codecs.configuration))));
    var o := Set(o, "variables", JArr(EmitAll(c.variables, codecs.variable.emit)));
    Set(o, "variableHashes", EmitHashes(c.variableHashes))
  }

  /** The parts of a body that its writer can write back faithfully. */
  predicate Writable(c: ConfigBody, codecs: ElementCodecs)
  {
    && (forall i :: 0 <= i < |c.features| ==> Features.Writable(c.features[i], codecs.configuration))
    && (forall i :: 0 <= i < |c.variables| ==>
          codecs.variable.parse(codecs.variable.emit(c.variables[i])) == Ok(c.variables[i]))
    && WellFormed(c.variableHashes)
  }

  /** Writing a body out and reading it back gives the same body. */
  lemma ConfigBodyRoundTrip(c: ConfigBody, codecs: ElementCodecs)
    requires Writable(c, codecs)
    ensures ParseConfigBody(EmitConfigBody(c, codecs), codecs) == Ok(c)
  {
    FeaturesRoundTrip(c.features, codecs.configuration);
    ParseAllEmitAll(c.variables, codecs.variable.parse, codecs.variable.emit);
    HashesRoundTrip(c.variableHashes);
    PublicRoundTrip(c.project);
    PublicRoundTrip(c.environment);
    EmittedMembers(c, codecs);
    ParseConfigBodyOfParts(EmitConfigBody(c, codecs), codecs, EmitPublic(c.project), EmitPublic(c.environment),
                           EmitAll(c.features, FeatureWriter(codecs.configuration)),
                           EmitAll(c.variables, codecs.variable.emit), EmitHashes(c.variableHashes), c);
  }

  /** The `features` array of writable features reads back as the same features. */
  lemma FeaturesRoundTrip(features: seq<Feature>, codec: ConfigurationCodec)
    requires forall i :: 0 <= i < |features| ==> Features.Writable(features[i], codec)
    ensures ParseAll(EmitAll(features, FeatureWriter(codec)), FeatureReader(codec)) == Ok(features)
  {
    forall i | 0 <= i < |features|
      ensures FeatureReader(codec)(FeatureWriter(codec)(features[i])) == Ok(features[i])
    {
      FeatureRoundTrip(features[i], codec);
    }
    ParseAllEmitAll(features, FeatureReader(codec), FeatureWriter(codec));
  }

  /** Each of the five members of a written body reads back as what was written there. */
  lemma EmittedMembers(c: ConfigBody, codecs: ElementCodecs)
    ensures var j := EmitConfigBody(c, codecs);
            && GetObj(j, "project") == Ok(EmitPublic(c.project))
            && GetObj(j, "environment") == Ok(EmitPublic(c.environment))
            && GetArray(j, "features") == Ok(EmitAll(c.features, FeatureWriter(codecs.configuration)))
            && GetArray(j, "variables") == Ok(EmitAll(c.variables, codecs.variable.emit))
            && GetObj(j, "variableHashes") == Ok(EmitHashes(c.variableHashes))
  {
  }

  /** The reader succeeds with `c` when each of its five members reads as the matching part of `c`. */
  lemma ParseConfigBodyOfParts(j: Json, codecs: ElementCodecs, pj: Json, ej: Json, fitems: seq<Json>,
                               vitems: seq<Json>, h: Json, c: ConfigBody)
    requires GetObj(j, "project") == Ok(pj) && ParsePublic(pj) == Ok(c.project)
    requires GetObj(j, "environment") == Ok(ej) && ParsePublic(ej) == Ok(c.environment)
    requires GetArray(j, "features") == Ok(fitems)
    requires ParseAll(fitems, FeatureReader(codecs.configuration)) == Ok(c.features)
    requires GetArray(j, "variables") == Ok(vitems) && ParseAll(vitems, codecs.variable.parse) == Ok(c.variables)
    requires GetObj(j, "variableHashes") == Ok(h) && HashesFrom(h.keys, h.fields) == Ok(c.variableHashes)
    ensures ParseConfigBody(j, codecs) == Ok(c)
  {
    assert ReadMembers(j, codecs) == Ok(BodyMembers(c.project, c.environment, c.features, c.variables, h));
  }
}
