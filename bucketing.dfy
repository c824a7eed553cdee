/**
 * The bucketing engine: for one user and one project config, which
 * variation of each feature the user gets and what each variable resolves to.
 *
 * For every feature, in config order, the user is resolved against the
 * first target whose audience matches; that target's rollout gates the
 * feature, and its distribution picks the variation. A target that cannot
 * pick a variation, a variation missing from its feature, or a variable
 * missing from the config aborts the whole call.
 *
 * The hash is a parameter; `now` is a parameter.
 */
module Bucketing {
  import opened Wrappers
  import opened Json
  import opened Audience
  import opened Targeting
  import opened Rollouts
  import opened Selection
  import opened Features
  import opened ConfigBodies

  datatype BoundedHashes = BoundedHashes(rolloutHash: real, bucketingHash: real)

  /** `generateBoundedHashes(user_id, target_id)`. */
  type Hasher = (string, string) -> BoundedHashes

  /** Both hashes lie in [0, 1) for every user and target. */
  ghost predicate ValidHasher(h: Hasher)
  {
    forall u, t :: 0.0 <= h(u, t).rolloutHash < 1.0 && 0.0 <= h(u, t).bucketingHash < 1.0
  }

  datatype BucketingError =
    | FailedToDecide(targetId: string)
    | MissingVariation(variationId: string)
    | MissingVariable(variableId: string)
    | RolloutInvalid(targetId: string)
    | UnknownSdkKey(sdkKey: string)

  /** The errors a corrupt config raises, each naming the id it could not resolve. */
  predicate IsIntegrityError(e: BucketingError)
  {
    e.FailedToDecide? || e.MissingVariation? || e.MissingVariable?
  }

  function MessagePrefix(e: BucketingError): string
    requires IsIntegrityError(e)
  {
    match e
    case FailedToDecide(_) => "Failed to decide target variation: "
    case MissingVariation(_) => "Config missing variation: "
    case MissingVariable(_) => "Config missing variable: "
  }

  function ErrorId(e: BucketingError): string
    requires IsIntegrityError(e)
  {
    match e
    case FailedToDecide(id) => id
    case MissingVariation(id) => id
    case MissingVariable(id) => id
  }

  /** The text the call throws. */
  function ErrorMessage(e: BucketingError): (r: string)
    requires IsIntegrityError(e)
    ensures |MessagePrefix(e)| <= |r| && r[..|MessagePrefix(e)|] == MessagePrefix(e)
    ensures r[|MessagePrefix(e)|..] == ErrorId(e)
  {
    MessagePrefix(e) + ErrorId(e)
  }

  /** Different errors throw different texts: the text names the kind of error and the id. */
  lemma ErrorMessageDistinguishes(e1: BucketingError, e2: BucketingError)
    requires IsIntegrityError(e1) && IsIntegrityError(e2)
    requires ErrorMessage(e1) == ErrorMessage(e2)
    ensures e1 == e2
  {
    var m := ErrorMessage(e1);
    // the three prefixes already differ in their first or their 21st character
    assert m[0] == MessagePrefix(e1)[0] == MessagePrefix(e2)[0];
    assert m[20] == MessagePrefix(e1)[20] == MessagePrefix(e2)[20];
    if MessagePrefix(e1) == MessagePrefix(e2) {
      assert ErrorId(e1) == m[|MessagePrefix(e1)|..] == ErrorId(e2);
      assert e1.FailedToDecide? <==> e2.FailedToDecide?;
      assert e1.MissingVariation? <==> e2.MissingVariation?;
    }
  }

  // ---------------------------------------------------------------- one feature

  /** Index of the first target whose audience the user matches. */
  function FirstMatchingTarget(targets: seq<Target>, user: User, clientData: CustomData): (r: Option<nat>)
    ensures r.Some? ==> r.value < |targets| && Matches(targets[r.value].audience, user, clientData)
    ensures r.Some? ==> forall j :: 0 <= j < r.value ==> !Matches(targets[j].audience, user, clientData)
    ensures r.None? ==> forall j :: 0 <= j < |targets| ==> !Matches(targets[j].audience, user, clientData)
  {
    if |targets| == 0 then None
    else if Matches(targets[0].audience, user, clientData) then Some(0)
    else
      match FirstMatchingTarget(targets[1..], user, clientData)
      case None => None
      case Some(k) => Some(k + 1)
  }

  /**
   * The variation id a feature gives the user, or `None` when the user is
   * in no target or fails the rollout of the first target they match.
   */
  function Segment(config: FeatureConfiguration, user: User, clientData: CustomData, hasher: Hasher, now: int)
    : (r: Result<Option<string>, BucketingError>)
    ensures FirstMatchingTarget(config.targets, user, clientData).None? ==> r == Ok(None)
    ensures r.Ok? && r.value.Some? ==>
              && FirstMatchingTarget(config.targets, user, clientData).Some?
              && var t := config.targets[FirstMatchingTarget(config.targets, user, clientData).value];
                 DoesUserPassRollout(t.rollout, hasher(user.userId, t.id).rolloutHash, now) == Ok(true)
    ensures r.Err? ==> FirstMatchingTarget(config.targets, user, clientData).Some?
                       && var t := config.targets[FirstMatchingTarget(config.targets, user, clientData).value];
                          r.error == RolloutInvalid(t.id) || r.error == FailedToDecide(t.id)
  {
    match FirstMatchingTarget(config.targets, user, clientData)
    case None => Ok(None)
    case Some(i) =>
      var t := config.targets[i];
      var h := hasher(user.userId, t.id);
      match DoesUserPassRollout(t.rollout, h.rolloutHash, now)
      case Err(_) => Err(RolloutInvalid(t.id))
      case Ok(false) => Ok(None)
      case Ok(true) =>
        match DecideTargetVariation(t, h.bucketingHash)
        case Err(_) => Err(FailedToDecide(t.id))
        case Ok(v) => Ok(Some(v))
  }

  /** Target `i` is the first one whose audience the user matches. */
  predicate FirstMatch(targets: seq<Target>, i: int, user: User, clientData: CustomData)
  {
    && 0 <= i < |targets|
    && Matches(targets[i].audience, user, clientData)
    && forall j :: 0 <= j < i ==> !Matches(targets[j].audience, user, clientData)
  }

  /**
   * Only the first target the user matches counts: no match excludes the
   * feature, a failed rollout excludes it too (the later targets are not
   * tried), a passed rollout leads to the distribution's choice, and an
   * unrecognised rollout or a distribution that selects nothing fails the
   * call, naming the target.
   */
  lemma SegmentRule(config: FeatureConfiguration, user: User, clientData: CustomData, hasher: Hasher, now: int)
    ensures (forall i :: 0 <= i < |config.targets| ==> !Matches(config.targets[i].audience, user, clientData))
            ==> Segment(config, user, clientData, hasher, now) == Ok(None)
    ensures forall i :: FirstMatch(config.targets, i, user, clientData) ==>
              var t := config.targets[i];
              var h := hasher(user.userId, t.id);
              var r := Segment(config, user, clientData, hasher, now);
              && (DoesUserPassRollout(t.rollout, h.rolloutHash, now) == Ok(false) ==> r == Ok(None))
              && (r == Err(RolloutInvalid(t.id)) <==> t.rollout == Some(Unrecognised))
              && (r == Err(FailedToDecide(t.id)) <==>
                    DoesUserPassRollout(t.rollout, h.rolloutHash, now) == Ok(true) && DecideTargetVariation(t, h.bucketingHash).Err?)
              && (forall v :: r == Ok(Some(v)) <==>
                    DoesUserPassRollout(t.rollout, h.rolloutHash, now) == Ok(true) && DecideTargetVariation(t, h.bucketingHash) == Ok(v))
  {
    forall i | FirstMatch(config.targets, i, user, clientData)
      ensures FirstMatchingTarget(config.targets, user, clientData) == Some(i)
    {
    }
  }

  /** A user who is segmented got a variation listed in the matched target's distribution. */
  lemma SegmentedVariationIsDistributed(config: FeatureConfiguration, user: User, clientData: CustomData, hasher: Hasher, now: int)
    requires Segment(config, user, clientData, hasher, now).Ok?
    requires Segment(config, user, clientData, hasher, now).value.Some?
    ensures exists i, k :: 0 <= i < |config.targets| && 0 <= k < |config.targets[i].distribution|
              && Matches(config.targets[i].audience, user, clientData)
              && config.targets[i].distribution[k].variationId == Segment(config, user, clientData, hasher, now).value.value
  {
    var i := FirstMatchingTarget(config.targets, user, clientData).value;
    var t := config.targets[i];
    var h := hasher(user.userId, t.id);
    var k :| 0 <= k < |t.distribution| && t.distribution[k].variationId == DecideTargetVariation(t, h.bucketingHash).value;
  }

  /** First variation of a feature with the given id. */
  function FindVariation(variations: seq<Variation>, id: string): (r: Option<Variation>)
    ensures r.Some? ==> r.value in variations && r.value.id == id
    ensures r.None? <==> forall i :: 0 <= i < |variations| ==> variations[i].id != id
    ensures r.Some? ==> exists i :: 0 <= i < |variations| && variations[i] == r.value
                                   && forall j :: 0 <= j < i ==> variations[j].id != id
  {
    if |variations| == 0 then None
    else if variations[0].id == id then Some(variations[0])
    else FindVariation(variations[1..], id)
  }

  /** First variable of the config with the given id. */
  function FindVariable(variables: seq<Variable>, id: string): (r: Option<Variable>)
    ensures r.Some? ==> r.value in variables && r.value.id == id
    ensures r.None? <==> forall i :: 0 <= i < |variables| ==> variables[i].id != id
    ensures r.Some? ==> exists i :: 0 <= i < |variables| && variables[i] == r.value
                                   && forall j :: 0 <= j < i ==> variables[j].id != id
  {
    if |variables| == 0 then None
    else if variables[0].id == id then Some(variables[0])
    else FindVariable(variables[1..], id)
  }

  /** A variable as the bucketed config reports it: the config's variable with the variation's value. */
  datatype SDKVariable = SDKVariable(id: string, key: string, vtype: VariableType, value: Json)

  /**
   * The variables a variation sets, in order; the first override naming a
   * variable the config does not have fails with that id.
   */
  function ResolveVariables(overrides: seq<VariationVariable>, variables: seq<Variable>)
    : (r: Result<seq<SDKVariable>, BucketingError>)
    ensures r.Ok? <==> forall i :: 0 <= i < |overrides| ==> FindVariable(variables, overrides[i].variableId).Some?
    ensures r.Ok? ==> |r.value| == |overrides|
    ensures r.Ok? ==> forall i :: 0 <= i < |overrides| ==>
              var v := FindVariable(variables, overrides[i].variableId).value;
              r.value[i] == SDKVariable(v.id, v.key, v.vtype, overrides[i].value)
    ensures r.Err? ==> exists i :: (0 <= i < |overrides|
                                    && FindVariable(variables, overrides[i].variableId).None?
                                    && r.error == MissingVariable(overrides[i].variableId)
                                    && forall j :: 0 <= j < i ==> FindVariable(variables, overrides[j].variableId).Some?)
  {
    if |overrides| == 0 then Ok([])
    else
      match FindVariable(variables, overrides[0].variableId)
      case None => Err(MissingVariable(overrides[0].variableId))
      case Some(v) =>
        match ResolveVariables(overrides[1..], variables)
        case Err(e) =>
          ghost var i :| 0 <= i < |overrides[1..]|
                         && FindVariable(variables, overrides[1..][i].variableId).None?
                         && e == MissingVariable(overrides[1..][i].variableId)
                         && forall j :: 0 <= j < i ==> FindVariable(variables, overrides[1..][j].variableId).Some?;
          assert FindVariable(variables, overrides[i + 1].variableId).None?;
          Err(e)
        case Ok(rest) => Ok([SDKVariable(v.id, v.key, v.vtype, overrides[0].value)] + rest)
  }

  /** A feature as the bucketed config reports it. */
  datatype FeatureResult = FeatureResult(
    id: string,
    key: string,
    ftype: FeatureType,
    variationId: string,
    variationName: Option<string>)

  /** What one segmented feature adds to the bucketed config. */
  datatype Bucketed = Bucketed(feature: FeatureResult, variables: seq<SDKVariable>)

  /** One feature for one user: excluded (`None`), bucketed, or an error that aborts the call. */
  function EvaluateFeature(body: ConfigBody, f: Feature, user: User, clientData: CustomData, hasher: Hasher, now: int)
    : (r: Result<Option<Bucketed>, BucketingError>)
    ensures r.Ok? && r.value.Some? ==>
              r.value.value.feature.id == f.id && r.value.value.feature.key == f.key
              && r.value.value.feature.ftype == f.ftype
    ensures Segment(f.configuration, user, clientData, hasher, now) == Ok(None) ==> r == Ok(None)
  {
    match Segment(f.configuration, user, clientData, hasher, now)
    case Err(e) => Err(e)
    case Ok(None) => Ok(None)
    case Ok(Some(vid)) =>
      match FindVariation(f.variations, vid)
      case None => Err(MissingVariation(vid))
      case Some(variation) =>
        match ResolveVariables(variation.variables, body.variables)
        case Err(e) => Err(e)
        case Ok(vars) => Ok(Some(Bucketed(FeatureResult(f.id, f.key, f.ftype, vid, variation.name), vars)))
  }

  /**
   * A bucketed feature reports the feature, the variation it was segmented
   * into (which must exist) and that variation's resolved variables; a
   * segmented variation missing from the feature fails the call, and so
   * does any failure to segment.
   */
  lemma EvaluateFeatureRule(body: ConfigBody, f: Feature, user: User, clientData: CustomData, hasher: Hasher, now: int)
    ensures var s := Segment(f.configuration, user, clientData, hasher, now);
            var r := EvaluateFeature(body, f, user, clientData, hasher, now);
            && (s.Err? ==> r == Err(s.error))
            && (s == Ok(None) ==> r == Ok(None))
            && (s.Ok? && s.value.Some? && (forall k :: 0 <= k < |f.variations| ==> f.variations[k].id != s.value.value)
                ==> r == Err(MissingVariation(s.value.value)))
    ensures var r := EvaluateFeature(body, f, user, clientData, hasher, now);
            r.Ok? && r.value.Some? ==>
              var b := r.value.value;
              && Segment(f.configuration, user, clientData, hasher, now) == Ok(Some(b.feature.variationId))
              && b.feature.id == f.id && b.feature.key == f.key && b.feature.ftype == f.ftype
              && exists k :: 0 <= k < |f.variations| && f.variations[k].id == b.feature.variationId
                             && f.variations[k].name == b.feature.variationName
                             && ResolveVariables(f.variations[k].variables, body.variables) == Ok(b.variables)
  {
    var s := Segment(f.configuration, user, clientData, hasher, now);
    if s.Ok? && s.value.Some? && FindVariation(f.variations, s.value.value).Some? {
      var variation := FindVariation(f.variations, s.value.value).value;
      var k :| 0 <= k < |f.variations| && f.variations[k] == variation;
    }
  }

  // ---------------------------------------------------------------- the whole config

  datatype VariableRef = VariableRef(featureId: string, variationId: string)

  datatype BucketedUserConfig = BucketedUserConfig(
    project: PublicProject,
    environment: PublicEnvironment,
    features: map<string, FeatureResult>,          // by feature key
    featureVariationMap: map<string, string>,      // feature id to variation id
    variableVariationMap: map<string, VariableRef>, // by variable key
    variables: map<string, SDKVariable>)           // by variable key

  /** Some variable of `vars` has key `k`. */
  predicate SetsKey(vars: seq<SDKVariable>, k: string)
  {
    exists i :: 0 <= i < |vars| && vars[i].key == k
  }

  /** `vars[i]` is the last variable of `vars` with its key. */
  predicate LastWithKey(vars: seq<SDKVariable>, i: int)
  {
    0 <= i < |vars| && forall j :: i < j < |vars| ==> vars[j].key != vars[i].key
  }

  /** Variables by key; a later variable with the same key replaces an earlier one. */
  function VariablesByKey(vars: seq<SDKVariable>): (r: map<string, SDKVariable>)
    ensures forall k :: k in r ==> r[k].key == k && r[k] in vars
    ensures forall i :: 0 <= i < |vars| ==> vars[i].key in r
    decreases |vars|
  {
    if |vars| == 0 then map[]
    else
      var last := vars[|vars| - 1];
      VariablesByKey(vars[..|vars| - 1])[last.key := last]
  }

  /** The last variable with a key is the one filed under it. */
  lemma {:induction false} VariablesByKeyLastWins(vars: seq<SDKVariable>, i: int)
    requires LastWithKey(vars, i)
    ensures vars[i].key in VariablesByKey(vars) && VariablesByKey(vars)[vars[i].key] == vars[i]
    decreases |vars|
  {
    if i < |vars| - 1 {
      var front := vars[..|vars| - 1];
      assert front[i] == vars[i];
      assert LastWithKey(front, i) by {
        forall j | i < j < |front| ensures front[j].key != front[i].key {
          assert front[j] == vars[j];
        }
      }
      VariablesByKeyLastWins(front, i);
      assert vars[|vars| - 1].key != vars[i].key;
    }
  }

  /** `m` with the variables of `vars` filed under their keys, the last of each key winning. */
  function FileVariables(m: map<string, SDKVariable>, vars: seq<SDKVariable>): (r: map<string, SDKVariable>)
    ensures forall k :: k in r <==> k in m || SetsKey(vars, k)
    ensures forall i :: LastWithKey(vars, i) ==> vars[i].key in r && r[vars[i].key] == vars[i]
    ensures forall k :: k in m && !SetsKey(vars, k) ==> r[k] == m[k]
  {
    var byKey := VariablesByKey(vars);
    assert forall k :: k in byKey <==> SetsKey(vars, k);
    assert forall i | LastWithKey(vars, i) :: vars[i].key in byKey && byKey[vars[i].key] == vars[i] by {
      forall i | LastWithKey(vars, i) ensures vars[i].key in byKey && byKey[vars[i].key] == vars[i] {
        VariablesByKeyLastWins(vars, i);
      }
    }
    m + byKey
  }

  /** `m` with every key of `vars` pointing at `ref`. */
  function FileRefs(m: map<string, VariableRef>, vars: seq<SDKVariable>, ref: VariableRef): (r: map<string, VariableRef>)
    ensures forall k :: k in r <==> k in m || SetsKey(vars, k)
    ensures forall i :: 0 <= i < |vars| ==> vars[i].key in r && r[vars[i].key] == ref
    ensures forall k :: k in m && !SetsKey(vars, k) ==> r[k] == m[k]
  {
    var refs := map k | k in VariablesByKey(vars) :: ref;
    assert forall k :: k in refs <==> SetsKey(vars, k);
    m + refs
  }

  /** Records one bucketed feature, replacing what earlier features set under the same keys. */
  function AddBucketed(c: BucketedUserConfig, b: Bucketed): (r: BucketedUserConfig)
    ensures r.project == c.project && r.environment == c.environment
    ensures r.features.Keys == c.features.Keys + {b.feature.key} && r.features[b.feature.key] == b.feature
    ensures forall k :: k in c.features && k != b.feature.key ==> r.features[k] == c.features[k]
    ensures r.featureVariationMap == c.featureVariationMap[b.feature.id := b.feature.variationId]
  {
    c.(features := c.features[b.feature.key := b.feature],
       featureVariationMap := c.featureVariationMap[b.feature.id := b.feature.variationId],
       variableVariationMap := FileRefs(c.variableVariationMap, b.variables, VariableRef(b.feature.id, b.feature.variationId)),
       variables := FileVariables(c.variables, b.variables))
  }

  /**
   * Variable `k` after recording `b`: a key of `b`'s variables is added,
   * holding the last of `b`'s variables with that key and pointing at `b`'s
   * feature and variation; any other key keeps its variable and its entry.
   */
  lemma AddBucketedVariable(c: BucketedUserConfig, b: Bucketed, k: string)
    ensures var r := AddBucketed(c, b);
            && (k in r.variables <==> k in c.variables || SetsKey(b.variables, k))
            && (k in r.variableVariationMap <==> k in c.variableVariationMap || SetsKey(b.variables, k))
            && (SetsKey(b.variables, k) ==>
                  r.variableVariationMap[k] == VariableRef(b.feature.id, b.feature.variationId)
                  && forall m :: LastWithKey(b.variables, m) && b.variables[m].key == k ==> r.variables[k] == b.variables[m])
            && (!SetsKey(b.variables, k) && k in c.variables ==> r.variables[k] == c.variables[k])
            && (!SetsKey(b.variables, k) && k in c.variableVariationMap ==>
                  r.variableVariationMap[k] == c.variableVariationMap[k])
  {
  }

  function EmptyConfig(body: ConfigBody): BucketedUserConfig
  {
    BucketedUserConfig(body.project, body.environment, map[], map[], map[], map[])
  }

  /** How one feature is evaluated for the user at hand. */
  type Evaluator = Feature -> Result<Option<Bucketed>, BucketingError>

  /** The evaluator of `generateBucketedConfig`: the user, the client data, the hash and the time fixed. */
  function EvaluatorFor(body: ConfigBody, user: User, clientData: CustomData, hasher: Hasher, now: int): Evaluator
  {
    (f: Feature) => EvaluateFeature(body, f, user, clientData, hasher, now)
  }

  /** An evaluator that reports each bucketed feature under the feature's own id, key and type. */
  ghost predicate KeepsIdentity(eval: Evaluator)
  {
    forall f :: eval(f).Ok? && eval(f).value.Some? ==>
      eval(f).value.value.feature.id == f.id && eval(f).value.value.feature.key == f.key
  }

  lemma EvaluatorKeepsIdentity(body: ConfigBody, user: User, clientData: CustomData, hasher: Hasher, now: int)
    ensures KeepsIdentity(EvaluatorFor(body, user, clientData, hasher, now))
  {
    forall f | EvaluateFeature(body, f, user, clientData, hasher, now).Ok?
      ensures EvaluateFeature(body, f, user, clientData, hasher, now).value.Some? ==>
                EvaluateFeature(body, f, user, clientData, hasher, now).value.value.feature.id == f.id
                && EvaluateFeature(body, f, user, clientData, hasher, now).value.value.feature.key == f.key
    {
      EvaluateFeatureRule(body, f, user, clientData, hasher, now);
    }
  }

  /** The config built from the first `n` features, in order; the first error aborts it. */
  function Assemble(body: ConfigBody, n: nat, eval: Evaluator): (r: Result<BucketedUserConfig, BucketingError>)
    requires n <= |body.features|
    ensures r.Ok? ==> r.value.project == body.project && r.value.environment == body.environment
    decreases n
  {
    if n == 0 then Ok(EmptyConfig(body))
    else
      match Assemble(body, n - 1, eval)
      case Err(e) => Err(e)
      case Ok(c) =>
        match eval(body.features[n - 1])
        case Err(e) => Err(e)
        case Ok(None) => Ok(c)
        case Ok(Some(b)) => Ok(AddBucketed(c, b))
  }

  /** The call succeeds exactly when every feature does, and otherwise fails with the first feature's error. */
  lemma {:induction false} AssembleAbortsOnFirstError(body: ConfigBody, n: nat, eval: Evaluator)
    requires n <= |body.features|
    ensures Assemble(body, n, eval).Ok? <==> forall i :: 0 <= i < n ==> eval(body.features[i]).Ok?
    ensures Assemble(body, n, eval).Err? ==>
              exists i :: (0 <= i < n && eval(body.features[i]) == Err(Assemble(body, n, eval).error)
                           && forall j :: 0 <= j < i ==> eval(body.features[j]).Ok?)
    decreases n
  {
    if n > 0 {
      AssembleAbortsOnFirstError(body, n - 1, eval);
      var prev := Assemble(body, n - 1, eval);
      if prev.Err? {
        var i :| 0 <= i < n - 1 && eval(body.features[i]) == Err(prev.error)
                 && forall j :: 0 <= j < i ==> eval(body.features[j]).Ok?;
        assert Assemble(body, n, eval) == prev;
      } else if eval(body.features[n - 1]).Err? {
        assert Assemble(body, n, eval) == Err(eval(body.features[n - 1]).error);
      }
    }
  }

  /** The `i`-th feature is in the user's config. */
  predicate Segmented(body: ConfigBody, i: nat, eval: Evaluator)
    requires i < |body.features|
  {
    eval(body.features[i]).Ok? && eval(body.features[i]).value.Some?
  }

  /**
   * The result keeps the config's project and environment, and a feature id
   * is in `featureVariationMap` exactly when a feature with that id was
   * segmented.
   */
  lemma {:induction false} AssembleFeatureKeys(body: ConfigBody, n: nat, eval: Evaluator)
    requires n <= |body.features| && Assemble(body, n, eval).Ok? && KeepsIdentity(eval)
    ensures var c := Assemble(body, n, eval).value;
            && c.project == body.project && c.environment == body.environment
            && forall id :: id in c.featureVariationMap <==>
                 exists i :: 0 <= i < n && body.features[i].id == id && Segmented(body, i, eval)
    decreases n
  {
    if n > 0 {
      AssembleFeatureKeys(body, n - 1, eval);
      AssembleFeatureKeysStep(body, n, eval);
      var c := Assemble(body, n - 1, eval).value;
      var r := Assemble(body, n, eval).value;
      forall id | id in r.featureVariationMap
        ensures exists i :: 0 <= i < n && body.features[i].id == id && Segmented(body, i, eval)
      {
        if id in c.featureVariationMap {
          var i :| 0 <= i < n - 1 && body.features[i].id == id && Segmented(body, i, eval);
        } else {
          assert body.features[n - 1].id == id && Segmented(body, n - 1, eval);
        }
      }
      forall id | exists i :: 0 <= i < n && body.features[i].id == id && Segmented(body, i, eval)
        ensures id in r.featureVariationMap
      {
        var i :| 0 <= i < n && body.features[i].id == id && Segmented(body, i, eval);
        if i < n - 1 {
          assert id in c.featureVariationMap;
        }
      }
    }
  }

  /** One more feature adds its own id to `featureVariationMap` when it is segmented, and nothing otherwise. */
  lemma AssembleFeatureKeysStep(body: ConfigBody, n: nat, eval: Evaluator)
    requires 0 < n <= |body.features| && Assemble(body, n, eval).Ok? && KeepsIdentity(eval)
    ensures Assemble(body, n - 1, eval).Ok?
    ensures var c := Assemble(body, n - 1, eval).value;
            var r := Assemble(body, n, eval).value;
            && r.project == c.project && r.environment == c.environment
            && r.featureVariationMap.Keys
               == c.featureVariationMap.Keys + (if Segmented(body, n - 1, eval) then {body.features[n - 1].id} else {})
  {
    var f := body.features[n - 1];
    if Segmented(body, n - 1, eval) {
      assert eval(f).value.value.feature.id == f.id;
    }
  }

  /** Each variable is filed under its own key, and the variables and `variableVariationMap` have the same keys. */
  lemma {:induction false} AssembleVariableKeys(body: ConfigBody, n: nat, eval: Evaluator)
    requires n <= |body.features| && Assemble(body, n, eval).Ok?
    ensures var c := Assemble(body, n, eval).value;
            && c.variables.Keys == c.variableVariationMap.Keys
            && forall k :: k in c.variables ==> c.variables[k].key == k
    decreases n
  {
    if n > 0 {
      AssembleVariableKeys(body, n - 1, eval);
      var c := Assemble(body, n - 1, eval).value;
      if Segmented(body, n - 1, eval) {
        var b := eval(body.features[n - 1]).value.value;
        assert Assemble(body, n, eval).value == AddBucketed(c, b);
      }
    }
  }

  /** The `i`-th feature was bucketed and one of its variables has key `k`. */
  predicate SetsVariable(body: ConfigBody, i: nat, eval: Evaluator, k: string)
    requires i < |body.features|
  {
    Segmented(body, i, eval) && SetsKey(eval(body.features[i]).value.value.variables, k)
  }

  /** Among the first `n` features, the `i`-th is the last bucketed one setting variable `k`. */
  predicate LastSetter(body: ConfigBody, n: nat, eval: Evaluator, k: string, i: nat)
    requires n <= |body.features|
  {
    i < n && SetsVariable(body, i, eval, k) && forall j :: i < j < n ==> !SetsVariable(body, j, eval, k)
  }

  /** One more feature adds its bucketed result to the config built so far, or leaves it as it is. */
  lemma AssembleStep(body: ConfigBody, n: nat, eval: Evaluator)
    requires 0 < n <= |body.features| && Assemble(body, n, eval).Ok?
    ensures Assemble(body, n - 1, eval).Ok?
    ensures Assemble(body, n, eval).value
            == if Segmented(body, n - 1, eval)
               then AddBucketed(Assemble(body, n - 1, eval).value, eval(body.features[n - 1]).value.value)
               else Assemble(body, n - 1, eval).value
  {
  }

  /** Whenever some of the first `n` features set `k`, one of them is the last to. */
  lemma {:induction false} LastSetterExists(body: ConfigBody, n: nat, eval: Evaluator, k: string, i: nat)
    requires n <= |body.features| && i < n && SetsVariable(body, i, eval, k)
    ensures exists l: nat :: LastSetter(body, n, eval, k, l)
    decreases n
  {
    if SetsVariable(body, n - 1, eval, k) {
      assert LastSetter(body, n, eval, k, n - 1);
    } else {
      LastSetterExists(body, n - 1, eval, k, i);
      var l: nat :| LastSetter(body, n - 1, eval, k, l);
      assert LastSetter(body, n, eval, k, l);
    }
  }

  /** Variable `k` is in the assembled config exactly when some bucketed feature sets it. */
  lemma {:induction false} AssembleVariableKey(body: ConfigBody, n: nat, eval: Evaluator, k: string)
    requires n <= |body.features| && Assemble(body, n, eval).Ok?
    ensures k in Assemble(body, n, eval).value.variables <==> exists i: nat :: i < n && SetsVariable(body, i, eval, k)
    decreases n
  {
    if n > 0 {
      AssembleVariableKey(body, n - 1, eval, k);
      AssembleStep(body, n, eval);
      var c := Assemble(body, n - 1, eval).value;
      var r := Assemble(body, n, eval).value;
      if Segmented(body, n - 1, eval) {
        AddBucketedVariable(c, eval(body.features[n - 1]).value.value, k);
      }
      if SetsVariable(body, n - 1, eval, k) {
        assert k in r.variables;
      } else {
        assert k in r.variables <==> k in c.variables;
        if k in c.variables {
          var i: nat :| i < n - 1 && SetsVariable(body, i, eval, k);
          assert i < n && SetsVariable(body, i, eval, k);
        }
        if exists i: nat :: i < n && SetsVariable(body, i, eval, k) {
          var i: nat :| i < n && SetsVariable(body, i, eval, k);
          assert i < n - 1;
        }
      }
    }
  }

  /**
   * The last bucketed feature that sets `k` decides it: `k` holds the last
   * of that feature's variables with key `k`, and `variableVariationMap`
   * points it at that feature and its variation.
   */
  lemma {:induction false} AssembleVariableValue(body: ConfigBody, n: nat, eval: Evaluator, k: string, i: nat)
    requires n <= |body.features| && Assemble(body, n, eval).Ok? && LastSetter(body, n, eval, k, i)
    ensures var c := Assemble(body, n, eval).value;
            var b := eval(body.features[i]).value.value;
            && k in c.variables && k in c.variableVariationMap
            && c.variableVariationMap[k] == VariableRef(b.feature.id, b.feature.variationId)
            && forall m :: LastWithKey(b.variables, m) && b.variables[m].key == k ==> c.variables[k] == b.variables[m]
    decreases n
  {
    AssembleStep(body, n, eval);
    var c := Assemble(body, n - 1, eval).value;
    var r := Assemble(body, n, eval).value;
    if i == n - 1 {
      var b := eval(body.features[i]).value.value;
      assert SetsKey(b.variables, k);
      assert r == AddBucketed(c, b);
      AddBucketedVariable(c, b, k);
    } else {
      assert LastSetter(body, n - 1, eval, k, i);
      AssembleVariableValue(body, n - 1, eval, k, i);
      assert k in r.variables && k in r.variableVariationMap
             && r.variables[k] == c.variables[k] && r.variableVariationMap[k] == c.variableVariationMap[k] by {
        if Segmented(body, n - 1, eval) {
          var b := eval(body.features[n - 1]).value.value;
          assert !SetsVariable(body, n - 1, eval, k);
          assert r == AddBucketed(c, b);
          AddBucketedVariable(c, b, k);
        }
      }
    }
  }

  /**
   * Variable `k` of the assembled config comes from the last bucketed
   * feature that sets it: the key is there exactly when such a feature
   * exists, it holds the last of that feature's variables with key `k`, and
   * `variableVariationMap` points it at that feature and its variation.
   */
  lemma AssembleVariableContents(body: ConfigBody, n: nat, eval: Evaluator, k: string)
    requires n <= |body.features| && Assemble(body, n, eval).Ok?
    ensures k in Assemble(body, n, eval).value.variables <==> exists i: nat :: LastSetter(body, n, eval, k, i)
    ensures forall i: nat :: LastSetter(body, n, eval, k, i) ==>
              var c := Assemble(body, n, eval).value;
              var b := eval(body.features[i]).value.value;
              && k in c.variables && k in c.variableVariationMap
              && c.variableVariationMap[k] == VariableRef(b.feature.id, b.feature.variationId)
              && forall m :: LastWithKey(b.variables, m) && b.variables[m].key == k ==> c.variables[k] == b.variables[m]
  {
    AssembleVariableKey(body, n, eval, k);
    if k in Assemble(body, n, eval).value.variables {
      var i: nat :| i < n && SetsVariable(body, i, eval, k);
      LastSetterExists(body, n, eval, k, i);
    }
    forall i: nat | LastSetter(body, n, eval, k, i)
      ensures var c := Assemble(body, n, eval).value;
              var b := eval(body.features[i]).value.value;
              && k in c.variables && k in c.variableVariationMap
              && c.variableVariationMap[k] == VariableRef(b.feature.id, b.feature.variationId)
              && forall m :: LastWithKey(b.variables, m) && b.variables[m].key == k ==> c.variables[k] == b.variables[m]
    {
      AssembleVariableValue(body, n, eval, k, i);
    }
  }

  /** Among the first `n` features, the `i`-th is the last bucketed one with feature key `key`. */
  predicate LastWithFeatureKey(body: ConfigBody, n: nat, eval: Evaluator, key: string, i: nat)
    requires n <= |body.features|
  {
    i < n && Segmented(body, i, eval) && body.features[i].key == key
    && forall j :: i < j < n && Segmented(body, j, eval) ==> body.features[j].key != key
  }

  /** Whenever some of the first `n` features were bucketed under `key`, one of them is the last. */
  lemma {:induction false} LastWithFeatureKeyExists(body: ConfigBody, n: nat, eval: Evaluator, key: string, i: nat)
    requires n <= |body.features| && i < n && Segmented(body, i, eval) && body.features[i].key == key
    ensures exists l: nat :: LastWithFeatureKey(body, n, eval, key, l)
    decreases n
  {
    if Segmented(body, n - 1, eval) && body.features[n - 1].key == key {
      assert LastWithFeatureKey(body, n, eval, key, n - 1);
    } else {
      LastWithFeatureKeyExists(body, n - 1, eval, key, i);
      var l: nat :| LastWithFeatureKey(body, n - 1, eval, key, l);
      assert LastWithFeatureKey(body, n, eval, key, l);
    }
  }

  /** Feature key `key` is in the assembled config exactly when a feature with that key was bucketed. */
  lemma {:induction false} AssembleFeatureKey(body: ConfigBody, n: nat, eval: Evaluator, key: string)
    requires n <= |body.features| && Assemble(body, n, eval).Ok? && KeepsIdentity(eval)
    ensures key in Assemble(body, n, eval).value.features
            <==> exists i: nat :: i < n && Segmented(body, i, eval) && body.features[i].key == key
    decreases n
  {
    if n > 0 {
      AssembleFeatureKey(body, n - 1, eval, key);
      AssembleStep(body, n, eval);
      if Segmented(body, n - 1, eval) {
        assert eval(body.features[n - 1]).value.value.feature.key == body.features[n - 1].key;
      }
    }
  }

  /** The last bucketed feature with key `key` is the one reported under it. */
  lemma {:induction false} AssembleFeatureValue(body: ConfigBody, n: nat, eval: Evaluator, key: string, i: nat)
    requires n <= |body.features| && Assemble(body, n, eval).Ok? && KeepsIdentity(eval)
    requires LastWithFeatureKey(body, n, eval, key, i)
    ensures var c := Assemble(body, n, eval).value;
            key in c.features && c.features[key] == eval(body.features[i]).value.value.feature
    decreases n
  {
    AssembleStep(body, n, eval);
    if i == n - 1 {
      assert eval(body.features[i]).value.value.feature.key == key;
    } else {
      assert LastWithFeatureKey(body, n - 1, eval, key, i);
      AssembleFeatureValue(body, n - 1, eval, key, i);
      if Segmented(body, n - 1, eval) {
        assert eval(body.features[n - 1]).value.value.feature.key != key;
      }
    }
  }

  /**
   * Feature key `key` of the assembled config is there exactly when a
   * feature with that key was bucketed, and holds the result of the last
   * such feature.
   */
  lemma AssembleFeatureContents(body: ConfigBody, n: nat, eval: Evaluator, key: string)
    requires n <= |body.features| && Assemble(body, n, eval).Ok? && KeepsIdentity(eval)
    ensures key in Assemble(body, n, eval).value.features <==> exists i: nat :: LastWithFeatureKey(body, n, eval, key, i)
    ensures forall i: nat :: LastWithFeatureKey(body, n, eval, key, i) ==>
              var c := Assemble(body, n, eval).value;
              key in c.features && c.features[key] == eval(body.features[i]).value.value.feature
  {
    AssembleFeatureKey(body, n, eval, key);
    if key in Assemble(body, n, eval).value.features {
      var i: nat :| i < n && Segmented(body, i, eval) && body.features[i].key == key;
      LastWithFeatureKeyExists(body, n, eval, key, i);
    }
    forall i: nat | LastWithFeatureKey(body, n, eval, key, i)
      ensures var c := Assemble(body, n, eval).value;
              key in c.features && c.features[key] == eval(body.features[i]).value.value.feature
    {
      AssembleFeatureValue(body, n, eval, key, i);
    }
  }

  /** Two evaluators that agree on the config's features build the same config. */
  lemma {:induction false} AssembleDependsOnOutcomesOnly(body: ConfigBody, n: nat, e1: Evaluator, e2: Evaluator)
    requires n <= |body.features|
    requires forall i :: 0 <= i < n ==> e1(body.features[i]) == e2(body.features[i])
    ensures Assemble(body, n, e1) == Assemble(body, n, e2)
    decreases n
  {
    if n > 0 {
      AssembleDependsOnOutcomesOnly(body, n - 1, e1, e2);
    }
  }

  /** `generateBucketedConfig`: every feature of the config, in order. */
  function GenerateBucketedConfig(body: ConfigBody, user: User, clientData: CustomData, hasher: Hasher, now: int)
    : (r: Result<BucketedUserConfig, BucketingError>)
    ensures r.Ok? <==> forall i :: 0 <= i < |body.features| ==>
                         EvaluateFeature(body, body.features[i], user, clientData, hasher, now).Ok?
    ensures r.Err? ==> exists i :: (0 <= i < |body.features|
                                    && EvaluateFeature(body, body.features[i], user, clientData, hasher, now) == Err(r.error)
                                    && forall j :: 0 <= j < i ==>
                                         EvaluateFeature(body, body.features[j], user, clientData, hasher, now).Ok?)
  {
    AssembleAbortsOnFirstError(body, |body.features|, EvaluatorFor(body, user, clientData, hasher, now));
    Assemble(body, |body.features|, EvaluatorFor(body, user, clientData, hasher, now))
  }

  /**
   * `generateBucketedConfig`'s variables: variable `k` is present exactly
   * when a feature the user is bucketed into sets it; it then holds the last
   * variable with key `k` of the last such feature, and
   * `variableVariationMap` points it at that feature and its variation.
   */
  lemma BucketedVariablesComeFromLastSetter(body: ConfigBody, user: User, clientData: CustomData, hasher: Hasher,
                                            now: int, k: string)
    requires GenerateBucketedConfig(body, user, clientData, hasher, now).Ok?
    ensures var eval := EvaluatorFor(body, user, clientData, hasher, now);
            var c := GenerateBucketedConfig(body, user, clientData, hasher, now).value;
            && (k in c.variables <==> exists i: nat :: LastSetter(body, |body.features|, eval, k, i))
            && forall i: nat :: LastSetter(body, |body.features|, eval, k, i) ==>
                 var b := EvaluateFeature(body, body.features[i], user, clientData, hasher, now).value.value;
                 && k in c.variables && k in c.variableVariationMap
                 && c.variableVariationMap[k] == VariableRef(b.feature.id, b.feature.variationId)
                 && forall m :: LastWithKey(b.variables, m) && b.variables[m].key == k ==> c.variables[k] == b.variables[m]
  {
    AssembleVariableContents(body, |body.features|, EvaluatorFor(body, user, clientData, hasher, now), k);
  }

  /**
   * `generateBucketedConfig`'s features: feature key `key` is present
   * exactly when a feature with that key is bucketed, and holds the result
   * of the last such feature.
   */
  lemma BucketedFeaturesComeFromLastSegmented(body: ConfigBody, user: User, clientData: CustomData, hasher: Hasher,
                                              now: int, key: string)
    requires GenerateBucketedConfig(body, user, clientData, hasher, now).Ok?
    ensures var eval := EvaluatorFor(body, user, clientData, hasher, now);
            var c := GenerateBucketedConfig(body, user, clientData, hasher, now).value;
            && (key in c.features <==> exists i: nat :: LastWithFeatureKey(body, |body.features|, eval, key, i))
            && forall i: nat :: LastWithFeatureKey(body, |body.features|, eval, key, i) ==>
                 key in c.features
                 && c.features[key] == EvaluateFeature(body, body.features[i], user, clientData, hasher, now).value.value.feature
  {
    EvaluatorKeepsIdentity(body, user, clientData, hasher, now);
    AssembleFeatureContents(body, |body.features|, EvaluatorFor(body, user, clientData, hasher, now), key);
  }

  predicate DistinctFeatureIds(body: ConfigBody)
  {
    forall i, j :: 0 <= i < j < |body.features| ==> body.features[i].id != body.features[j].id
  }

  /** With distinct feature ids, each segmented feature maps to the variation it was given. */
  lemma {:induction false} FeatureVariationMapValues(body: ConfigBody, n: nat, eval: Evaluator)
    requires n <= |body.features| && DistinctFeatureIds(body) && KeepsIdentity(eval)
    requires Assemble(body, n, eval).Ok?
    ensures forall i :: 0 <= i < n && Segmented(body, i, eval) ==>
              var m := Assemble(body, n, eval).value.featureVariationMap;
              body.features[i].id in m && m[body.features[i].id] == eval(body.features[i]).value.value.feature.variationId
    decreases n
  {
    if n > 0 {
      FeatureVariationMapValues(body, n - 1, eval);
    }
  }

  /** An evaluator whose bucketed variables are all variables of the config. */
  ghost predicate DrawsFromConfig(eval: Evaluator, body: ConfigBody)
  {
    forall f, v :: eval(f).Ok? && eval(f).value.Some? && v in eval(f).value.value.variables ==>
      Variable(v.id, v.key, v.vtype) in body.variables
  }

  lemma EvaluatorDrawsFromConfig(body: ConfigBody, user: User, clientData: CustomData, hasher: Hasher, now: int)
    ensures DrawsFromConfig(EvaluatorFor(body, user, clientData, hasher, now), body)
  {
    forall f, v | EvaluateFeature(body, f, user, clientData, hasher, now).Ok?
                  && EvaluateFeature(body, f, user, clientData, hasher, now).value.Some?
                  && v in EvaluateFeature(body, f, user, clientData, hasher, now).value.value.variables
      ensures Variable(v.id, v.key, v.vtype) in body.variables
    {
      var b := EvaluateFeature(body, f, user, clientData, hasher, now).value.value;
      EvaluateFeatureRule(body, f, user, clientData, hasher, now);
      var k :| 0 <= k < |f.variations| && f.variations[k].id == b.feature.variationId
               && f.variations[k].name == b.feature.variationName
               && ResolveVariables(f.variations[k].variables, body.variables) == Ok(b.variables);
      ResolvedVariableIsConfigVariable(f.variations[k].variables, body.variables, b.variables, v);
    }
  }

  /** A resolved variable is a variable of the config, with its id, key and type. */
  lemma ResolvedVariableIsConfigVariable(overrides: seq<VariationVariable>, variables: seq<Variable>,
                                         resolved: seq<SDKVariable>, v: SDKVariable)
    requires ResolveVariables(overrides, variables) == Ok(resolved) && v in resolved
    ensures Variable(v.id, v.key, v.vtype) in variables
  {
    var i :| 0 <= i < |resolved| && resolved[i] == v;
    var found := FindVariable(variables, overrides[i].variableId).value;
    assert found == Variable(v.id, v.key, v.vtype);
  }

  /** Every variable in the result is a variable of the config, reported under its own key and type. */
  lemma {:induction false} VariablesComeFromConfig(body: ConfigBody, n: nat, eval: Evaluator)
    requires n <= |body.features| && DrawsFromConfig(eval, body)
    requires Assemble(body, n, eval).Ok?
    ensures forall k :: k in Assemble(body, n, eval).value.variables ==>
              var v := Assemble(body, n, eval).value.variables[k];
              Variable(v.id, v.key, v.vtype) in body.variables
    decreases n
  {
    if n > 0 {
      VariablesComeFromConfig(body, n - 1, eval);
    }
  }

  /** Every target distribution of the feature is non-negative, non-empty and sums to one. */
  predicate CompleteDistributions(f: Feature)
  {
    forall j :: 0 <= j < |f.configuration.targets| ==>
      var d := f.configuration.targets[j].distribution;
      NonNegative(d) && |d| > 0 && PrefixSum(d, |d|) == 1.0
  }

  /** With hashes in [0, 1) and complete distributions, a feature never fails to decide a variation. */
  lemma FeatureAlwaysDecides(body: ConfigBody, f: Feature, user: User, clientData: CustomData, hasher: Hasher, now: int)
    requires ValidHasher(hasher) && CompleteDistributions(f)
    ensures EvaluateFeature(body, f, user, clientData, hasher, now).Err? ==>
              !EvaluateFeature(body, f, user, clientData, hasher, now).error.FailedToDecide?
  {
    var config := f.configuration;
    var m := FirstMatchingTarget(config.targets, user, clientData);
    if m.Some? {
      var t := config.targets[m.value];
      CompleteDistributionSelects(t, hasher(user.userId, t.id).bucketingHash);
    }
  }

  /** With hashes in [0, 1) and complete distributions, generating a config never fails to decide a variation. */
  lemma CompleteDistributionsAlwaysDecide(body: ConfigBody, user: User, clientData: CustomData, hasher: Hasher, now: int)
    requires ValidHasher(hasher) && forall i :: 0 <= i < |body.features| ==> CompleteDistributions(body.features[i])
    ensures GenerateBucketedConfig(body, user, clientData, hasher, now).Err? ==>
              !GenerateBucketedConfig(body, user, clientData, hasher, now).error.FailedToDecide?
  {
    forall i | 0 <= i < |body.features|
      ensures EvaluateFeature(body, body.features[i], user, clientData, hasher, now).Err? ==>
                !EvaluateFeature(body, body.features[i], user, clientData, hasher, now).error.FailedToDecide?
    {
      FeatureAlwaysDecides(body, body.features[i], user, clientData, hasher, now);
    }
  }

  /** Resolving against the first matching target depends on the audiences only through matching. */
  lemma {:induction false} FirstMatchOfEquivalentUsers(targets: seq<Target>, u1: User, d1: CustomData, u2: User, d2: CustomData)
    requires forall i :: 0 <= i < |targets| ==> Matches(targets[i].audience, u1, d1) == Matches(targets[i].audience, u2, d2)
    ensures FirstMatchingTarget(targets, u1, d1) == FirstMatchingTarget(targets, u2, d2)
    decreases |targets|
  {
    if |targets| > 0 {
      FirstMatchOfEquivalentUsers(targets[1..], u1, d1, u2, d2);
    }
  }

  /**
   * One feature segments a user with client data as if the client's entries
   * filled the keys the user's own `customData` and `privateCustomData` do not set.
   */
  lemma SegmentUnderClientData(config: FeatureConfiguration, user: User, clientData: CustomData, hasher: Hasher, now: int)
    ensures Segment(config, user, clientData, hasher, now)
            == Segment(config, WithClientDefaults(user, clientData), map[], hasher, now)
  {
    var merged := WithClientDefaults(user, clientData);
    forall i | 0 <= i < |config.targets|
      ensures Matches(config.targets[i].audience, user, clientData) == Matches(config.targets[i].audience, merged, map[])
    {
      ClientDataActsAsCustomDataDefaults(config.targets[i].audience, user, clientData);
    }
    FirstMatchOfEquivalentUsers(config.targets, user, clientData, merged, map[]);
  }

  /**
   * Client custom data acts on the whole config exactly as defaults for the
   * user's own `customData`: its entries count only on keys the user does
   * not set.
   */
  lemma ClientDataDefaultsCustomData(body: ConfigBody, user: User, clientData: CustomData, hasher: Hasher, now: int)
    ensures GenerateBucketedConfig(body, user, clientData, hasher, now)
            == GenerateBucketedConfig(body, WithClientDefaults(user, clientData), map[], hasher, now)
  {
    var merged := WithClientDefaults(user, clientData);
    var e1 := EvaluatorFor(body, user, clientData, hasher, now);
    var e2 := EvaluatorFor(body, merged, map[], hasher, now);
    forall i | 0 <= i < |body.features|
      ensures e1(body.features[i]) == e2(body.features[i])
    {
      SegmentUnderClientData(body.features[i].configuration, user, clientData, hasher, now);
    }
    AssembleDependsOnOutcomesOnly(body, |body.features|, e1, e2);
  }

  /**
   * `variableForUser`: the variable with that key in the user's bucketed
   * config, when the config can be built and the variable has the asked
   * type; otherwise nothing.
   */
  function VariableForUser(body: ConfigBody, user: User, clientData: CustomData, hasher: Hasher, now: int,
                           key: string, vtype: VariableType): (r: Option<SDKVariable>)
    ensures var c := GenerateBucketedConfig(body, user, clientData, hasher, now);
            r.Some? <==> c.Ok? && key in c.value.variables && c.value.variables[key].vtype == vtype
    ensures r.Some? ==> r.value == GenerateBucketedConfig(body, user, clientData, hasher, now).value.variables[key]
    ensures r.Some? ==> r.value.key == key && r.value.vtype == vtype
  {
    match GenerateBucketedConfig(body, user, clientData, hasher, now)
    case Err(_) => None
    case Ok(c) =>
      AssembleVariableKeys(body, |body.features|, EvaluatorFor(body, user, clientData, hasher, now));
      if key in c.variables && c.variables[key].vtype == vtype then Some(c.variables[key]) else None
  }
}
