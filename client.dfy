/**
 * The browser SDK client's decision rules: the typed `variable` lookup and
 * its per-key, per-default memo table, the views of the current config, the
 * config-received and server-sent-event rules keyed on the config's etag,
 * the edgeDB gate, and the closing guard on `track`.
 *
 * The client is a class whose fields are the ones those methods update.
 * What the source hands to collaborators (the cache store, the event
 * emitter, the event queue, the logger, the request consolidator) is
 * recorded, in order, in the `effects` log instead of being performed.
 */
module BrowserClient {
  import opened Wrappers
  import opened Json
  import opened Targeting

  /** A user populated by the SDK. The client compares users by identity, so this is a class. */
  class PopulatedUser {
    const userId: string
    const isAnonymous: bool

    constructor (userId: string, isAnonymous: bool)
      ensures this.userId == userId && this.isAnonymous == isAnonymous
    {
      this.userId := userId;
      this.isAnonymous := isAnonymous;
    }
  }

  /** A variable of a bucketed config, keyed by its key in `variables`. */
  datatype ConfigVariable = ConfigVariable(id: string, key: string, vtype: VariableType, value: JsValue)

  /** A feature of a bucketed config, keyed by its key in `features`. */
  datatype ConfigFeature = ConfigFeature(id: string, key: string, variationId: string)

  /**
   * The parts of a bucketed user config the client decides on;
   * `edgeDbEnabled` is `project.settings.edgeDB.enabled`, false when absent.
   */
  datatype ClientConfig = ClientConfig(
    features: map<string, ConfigFeature>,
    variables: map<string, ConfigVariable>,
    edgeDbEnabled: bool,
    etag: Option<string>)

  /** The options these rules read; `None` is an option the caller left unset. */
  datatype ClientOptions = ClientOptions(
    enableEdgeDb: Option<bool>,
    disableAutomaticEventLogging: bool,
    disableCustomEventLogging: bool)

  /** The variable object `variable` hands out: the config value when one was taken, else the default. */
  datatype ClientVariable = ClientVariable(key: string, defaultValue: JsValue, configValue: Option<JsValue>)
  {
    function Value(): JsValue
    {
      if configValue.Some? then configValue.value else defaultValue
    }

    predicate IsDefaulted()
    {
      configValue.None?
    }
  }

  /** A custom event for `track`; `eventType` is its required `type`. */
  datatype ClientEvent = ClientEvent(eventType: Option<string>, target: Option<string>)

  datatype ClientError =
    | MissingDefault              // "Default value is a required param"
    | InvalidDefaultType(key: string)
    | MissingParam(name: string)

  /** What the client hands to its collaborators, in the order it does so. */
  datatype Effect =
    | TypeMismatch(key: string, expected: VariableType, got: VariableType)
    | AggregateEvent(defaulted: bool, target: string)
    | VariableEvaluated(key: string)
    | SaveConfig(config: ClientConfig, userId: string, dateFetched: int)
    | SaveUser(userId: string)
    | EdgeDbNotEnabled
    | SaveEntity(userId: string)
    | FeatureUpdates(oldFeatures: map<string, ConfigFeature>, newFeatures: map<string, ConfigFeature>)
    | VariableUpdates(oldVariables: map<string, ConfigVariable>, newVariables: map<string, ConfigVariable>)
    | ConfigUpdated(variables: map<string, ConfigVariable>)
    | Refetch(sse: bool, lastModified: Option<int>, etag: Option<string>)
    | UnparseableMessage
    | ClosingError                // "Client is closing, cannot track new events."
    | QueueEvent(event: ClientEvent)

  // ---------------------------------------------------------------- variable

  /**
   * The variable type of a default value, by its JavaScript `typeof`;
   * `undefined` and `null` are refused first, and a value of no variable
   * type (a function, say) is refused as well.
   */
  function DefaultType(key: string, defaultValue: JsValue): (r: Result<VariableType, ClientError>)
    ensures r == Err(MissingDefault) <==> defaultValue.Undefined? || defaultValue.Null?
    ensures r.Err? <==> defaultValue.Undefined? || defaultValue.Null? || defaultValue.Other?
    ensures r == Ok(StringType) <==> defaultValue.Str?
    ensures r == Ok(NumberType) <==> defaultValue.Num?
    ensures r == Ok(BooleanType) <==> defaultValue.Bool?
    ensures r == Ok(JsonType) <==> defaultValue.Obj? || defaultValue.Arr?
  {
    match defaultValue
    case Undefined => Err(MissingDefault)
    case Null => Err(MissingDefault)
    case Str(_) => Ok(StringType)
    case Num(_) => Ok(NumberType)
    case Bool(_) => Ok(BooleanType)
    case Arr(_) => Ok(JsonType)
    case Obj(_) => Ok(JsonType)
    case Other => Err(InvalidDefaultType(key))
  }

  /** The memo slot of a default: a string default is its own key, anything else its JSON text. */
  function DefaultKey(defaultValue: JsValue, stringify: JsValue -> string): (r: string)
    ensures defaultValue.Str? ==> r == defaultValue.s
    ensures !defaultValue.Str? ==> r == stringify(defaultValue)
  {
    if defaultValue.Str? then defaultValue.s else stringify(defaultValue)
  }

  /**
   * A variable read from the config: it takes the config's value only when
   * the config has the key and the stored type is the default's type.
   */
  function Resolve(config: Option<ClientConfig>, key: string, defaultValue: JsValue, vtype: VariableType)
    : (r: ClientVariable)
    ensures r.key == key && r.defaultValue == defaultValue
    ensures r.configValue.Some? <==> config.Some? && key in config.value.variables
                                     && config.value.variables[key].vtype == vtype
    ensures r.configValue.Some? ==> r.configValue.value == config.value.variables[key].value
  {
    if config.Some? && key in config.value.variables && config.value.variables[key].vtype == vtype
    then ClientVariable(key, defaultValue, Some(config.value.variables[key].value))
    else ClientVariable(key, defaultValue, None)
  }

  /** The config holds the key under another type: the default stands and a warning is logged. */
  predicate Mismatch(config: Option<ClientConfig>, key: string, vtype: VariableType)
  {
    config.Some? && key in config.value.variables && config.value.variables[key].vtype != vtype
  }

  type MemoTable = map<string, map<string, ClientVariable>>

  /** The memo entries of one variable key; none before its first lookup. */
  function Entries(table: MemoTable, key: string): map<string, ClientVariable>
  {
    if key in table then table[key] else map[]
  }

  /** Records a variable under its key and default key, keeping every other entry. */
  function Remember(table: MemoTable, key: string, slot: string, v: ClientVariable): (r: MemoTable)
    ensures r.Keys == table.Keys + {key}
    ensures slot in r[key] && r[key][slot] == v
    ensures forall d :: d in Entries(table, key) && d != slot ==> d in r[key] && r[key][d] == Entries(table, key)[d]
    ensures forall k :: k in table && k != key ==> r[k] == table[k]
  {
    table[key := Entries(table, key)[slot := v]]
  }

  /**
   * What `variable(key, defaultValue)` returns: an error for a missing or
   * untyped default; the memoised object when the key and default key were
   * seen before; otherwise a fresh variable resolved from the config.
   */
  function VariableFor(table: MemoTable, config: Option<ClientConfig>, key: string, defaultValue: JsValue,
                       stringify: JsValue -> string): (r: Result<ClientVariable, ClientError>)
    ensures r.Err? <==> DefaultType(key, defaultValue).Err?
    ensures r.Err? ==> r.error == DefaultType(key, defaultValue).error
    ensures r.Ok? && DefaultKey(defaultValue, stringify) in Entries(table, key) ==>
              r.value == Entries(table, key)[DefaultKey(defaultValue, stringify)]
  {
    match DefaultType(key, defaultValue)
    case Err(e) => Err(e)
    case Ok(t) =>
      var slot := DefaultKey(defaultValue, stringify);
      if slot in Entries(table, key) then Ok(Entries(table, key)[slot])
      else Ok(Resolve(config, key, defaultValue, t))
  }

  /** Every rule of `VariableFor` at once, in terms of the default's type and slot. */
  lemma VariableForRule(table: MemoTable, config: Option<ClientConfig>, key: string, defaultValue: JsValue,
                        stringify: JsValue -> string)
    ensures var r := VariableFor(table, config, key, defaultValue, stringify);
            && (r.Err? <==> DefaultType(key, defaultValue).Err?)
            && (r.Err? ==> r.error == DefaultType(key, defaultValue).error)
    ensures var r := VariableFor(table, config, key, defaultValue, stringify);
            var slot := DefaultKey(defaultValue, stringify);
            r.Ok? && slot in Entries(table, key) ==> r.value == Entries(table, key)[slot]
    ensures var r := VariableFor(table, config, key, defaultValue, stringify);
            var slot := DefaultKey(defaultValue, stringify);
            r.Ok? && slot !in Entries(table, key) ==>
              && r.value.key == key && r.value.defaultValue == defaultValue
              && (r.value.configValue.Some? <==>
                    (config.Some? && key in config.value.variables
                     && Ok(config.value.variables[key].vtype) == DefaultType(key, defaultValue)))
  {
  }

  /** A memoised variable does not look at the config again: any config gives the same object. */
  lemma MemoHitIgnoresConfig(table: MemoTable, c1: Option<ClientConfig>, c2: Option<ClientConfig>, key: string,
                             defaultValue: JsValue, stringify: JsValue -> string)
    requires DefaultKey(defaultValue, stringify) in Entries(table, key)
    ensures VariableFor(table, c1, key, defaultValue, stringify) == VariableFor(table, c2, key, defaultValue, stringify)
  {
  }

  /** Asking twice gives the same object, whatever config arrived in between. */
  lemma SecondLookupReturnsFirst(table: MemoTable, c1: Option<ClientConfig>, c2: Option<ClientConfig>, key: string,
                                 defaultValue: JsValue, stringify: JsValue -> string)
    requires VariableFor(table, c1, key, defaultValue, stringify).Ok?
    ensures var v := VariableFor(table, c1, key, defaultValue, stringify).value;
            var table' := Remember(table, key, DefaultKey(defaultValue, stringify), v);
            VariableFor(table', c2, key, defaultValue, stringify) == Ok(v)
  {
    var v := VariableFor(table, c1, key, defaultValue, stringify).value;
    var slot := DefaultKey(defaultValue, stringify);
    var table' := Remember(table, key, slot, v);
    assert slot in Entries(table', key);
  }

  /**
   * The string `"true"` and the boolean `true` share one memo slot, since
   * `JSON.stringify(true)` is `"true"`: after a string lookup, the boolean
   * lookup of the same key hands back the string-defaulted variable.
   */
  lemma StringAndBooleanDefaultsShareSlot(table: MemoTable, c1: Option<ClientConfig>, c2: Option<ClientConfig>,
                                          key: string, stringify: JsValue -> string)
    requires stringify(Bool(true)) == "true"
    ensures var v := VariableFor(table, c1, key, Str("true"), stringify).value;
            var table' := Remember(table, key, "true", v);
            VariableFor(table', c2, key, Bool(true), stringify) == Ok(v)
            && v.defaultValue.Str? == ("true" !in Entries(table, key) || Entries(table, key)["true"].defaultValue.Str?)
  {
    var v := VariableFor(table, c1, key, Str("true"), stringify).value;
    var table' := Remember(table, key, "true", v);
    assert DefaultKey(Bool(true), stringify) == "true";
    assert "true" in Entries(table', key);
  }

  /** What a successful `variable` call logs: a type warning, the evaluation event, the evaluated notice. */
  function VariableEffects(table: MemoTable, config: Option<ClientConfig>, key: string, defaultValue: JsValue,
                           t: VariableType, v: ClientVariable, options: ClientOptions, slot: string): (r: seq<Effect>)
    requires Mismatch(config, key, t) ==> config.Some? && key in config.value.variables
    ensures |r| > 0 && r[|r| - 1] == VariableEvaluated(key)
    ensures !options.disableAutomaticEventLogging ==> |r| > 1 && r[|r| - 2] == AggregateEvent(v.IsDefaulted(), key)
    ensures options.disableAutomaticEventLogging ==> forall i :: 0 <= i < |r| ==> !r[i].AggregateEvent?
    ensures r[0].TypeMismatch? <==> slot !in Entries(table, key) && Mismatch(config, key, t)
  {
    (if slot !in Entries(table, key) && Mismatch(config, key, t)
     then [TypeMismatch(key, t, config.value.variables[key].vtype)] else [])
    + (if options.disableAutomaticEventLogging then [] else [AggregateEvent(v.IsDefaulted(), key)])
    + [VariableEvaluated(key)]
  }

  /** The update-event rule: a config counts as new when there was none or its etag changed. */
  predicate ConfigChanged(oldConfig: Option<ClientConfig>, config: ClientConfig)
    ensures oldConfig.None? ==> ConfigChanged(oldConfig, config)
    ensures oldConfig == Some(config) ==> !ConfigChanged(oldConfig, config)
  {
    oldConfig.None? || oldConfig.value.etag != config.etag
  }

  /** `checkIfEdgeEnabled`: both the project setting and the option must be on. */
  function CheckIfEdgeEnabled(config: ClientConfig, enableEdgeDb: Option<bool>): (r: bool)
    ensures r <==> config.edgeDbEnabled && enableEdgeDb == Some(true)
    ensures !config.edgeDbEnabled ==> !r
  {
    if config.edgeDbEnabled then enableEdgeDb == Some(true) else false
  }

  /** The warning `checkIfEdgeEnabled` logs: the option asks for edgeDB but the project does not have it. */
  predicate EdgeDbWarning(config: ClientConfig, enableEdgeDb: Option<bool>, logWarning: bool)
  {
    !config.edgeDbEnabled && enableEdgeDb == Some(true) && logWarning
  }

  /** The gate is open or warns, never both; with the option unset it is silent and closed. */
  lemma EdgeDbGateExclusive(config: ClientConfig, enableEdgeDb: Option<bool>)
    ensures !(CheckIfEdgeEnabled(config, enableEdgeDb) && EdgeDbWarning(config, enableEdgeDb, true))
    ensures enableEdgeDb != Some(true) ==> !CheckIfEdgeEnabled(config, enableEdgeDb) && !EdgeDbWarning(config, enableEdgeDb, true)
  {
  }

  /**
   * What storing a new user hands on: the user is saved; a user who is not
   * anonymous is also saved as an entity when the edgeDB gate is open, and
   * triggers the gate's warning when it asks for edgeDB without the project.
   */
  function UserSaveEffects(u: PopulatedUser, config: ClientConfig, enableEdgeDb: Option<bool>): (r: seq<Effect>)
    ensures |r| >= 1 && r[0] == SaveUser(u.userId)
    ensures SaveEntity(u.userId) in r <==> !u.isAnonymous && CheckIfEdgeEnabled(config, enableEdgeDb)
    ensures EdgeDbNotEnabled in r <==> !u.isAnonymous && EdgeDbWarning(config, enableEdgeDb, true)
  {
    [SaveUser(u.userId)]
    + (if !u.isAnonymous && EdgeDbWarning(config, enableEdgeDb, true) then [EdgeDbNotEnabled] else [])
    + (if !u.isAnonymous && CheckIfEdgeEnabled(config, enableEdgeDb) then [SaveEntity(u.userId)] else [])
  }

  /**
   * The update events of a received config: feature and variable updates
   * against the old config (empty when there was none), and `configUpdated`
   * exactly when the config changed.
   */
  function UpdateEffects(oldConfig: Option<ClientConfig>, config: ClientConfig): (r: seq<Effect>)
    ensures |r| >= 2 && r[0].FeatureUpdates? && r[1].VariableUpdates?
    ensures r[0].newFeatures == config.features && r[1].newVariables == config.variables
    ensures oldConfig.None? ==> r[0].oldFeatures == map[] && r[1].oldVariables == map[]
    ensures ConfigUpdated(config.variables) in r <==> ConfigChanged(oldConfig, config)
  {
    var oldFeatures := if oldConfig.Some? then oldConfig.value.features else map[];
    var oldVariables := if oldConfig.Some? then oldConfig.value.variables else map[];
    [FeatureUpdates(oldFeatures, config.features), VariableUpdates(oldVariables, config.variables)]
    + (if ConfigChanged(oldConfig, config) then [ConfigUpdated(config.variables)] else [])
  }

  /** Receiving the config already held (same etag) emits no `configUpdated`; the first config always does. */
  lemma SameEtagEmitsNoConfigUpdate(held: ClientConfig, config: ClientConfig)
    requires held.etag == config.etag
    ensures ConfigUpdated(config.variables) !in UpdateEffects(Some(held), config)
    ensures ConfigUpdated(config.variables) in UpdateEffects(None, config)
  {
  }

  // ---------------------------------------------------------------- server-sent events

  /** The `data` of a parsed server-sent event; falsy data is `None` in `SseMessage`. */
  datatype MessageData = MessageData(messageType: Option<string>, etag: Option<string>, lastModified: Option<int>)

  datatype SseMessage = Unparseable | Parsed(data: Option<MessageData>)

  /** The refetch rule: a refetch message (or an untyped one) whose etag is not the one held. */
  predicate ShouldRefetch(config: Option<ClientConfig>, data: MessageData)
    ensures config.Some? && Truthy(config.value.etag) && data.etag == config.value.etag ==> !ShouldRefetch(config, data)
    ensures config.None? && data.messageType == Some("refetchConfig") ==> ShouldRefetch(config, data)
  {
    && (!Truthy(data.messageType) || data.messageType == Some("refetchConfig"))
    && (config.None? || !Truthy(config.value.etag) || data.etag != config.value.etag)
  }

  /** What `onSSEMessage` hands on for one message. */
  function SseEffects(config: Option<ClientConfig>, message: SseMessage): (r: seq<Effect>)
    ensures message.Unparseable? ==> r == [UnparseableMessage]
    ensures message.Parsed? ==> (r != [] <==> message.data.Some? && ShouldRefetch(config, message.data.value))
    ensures r != [] && message.Parsed? ==>
              r == [Refetch(true, message.data.value.lastModified, message.data.value.etag)]
  {
    match message
    case Unparseable => [UnparseableMessage]
    case Parsed(None) => []
    case Parsed(Some(d)) =>
      if ShouldRefetch(config, d) then [Refetch(true, d.lastModified, d.etag)] else []
  }

  /** A message announcing the etag the client already holds never triggers a refetch. */
  lemma CurrentEtagIsNotRefetched(config: ClientConfig, data: MessageData)
    requires Truthy(config.etag) && data.etag == config.etag
    ensures SseEffects(Some(config), Parsed(Some(data))) == []
  {
  }

  /** A message of another type is ignored whatever its etag. */
  lemma OtherMessageTypesIgnored(config: Option<ClientConfig>, data: MessageData)
    requires Truthy(data.messageType) && data.messageType != Some("refetchConfig")
    ensures SseEffects(config, Parsed(Some(data))) == []
  {
  }

  // ---------------------------------------------------------------- the client

  class DevCycleClient {
    const options: ClientOptions
    /** The platform's `JSON.stringify`, used for the memo slot of a non-string default. */
    const stringify: JsValue -> string

    var config: Option<ClientConfig>
    var user: Option<PopulatedUser>
    var userSaved: bool
    var closing: bool
    var isConfigCached: bool
    var variableDefaultMap: MemoTable
    var effects: seq<Effect>

    /** A client with no config, no user and an empty memo table. */
    constructor (options: ClientOptions, stringify: JsValue -> string)
      ensures this.options == options && this.stringify == stringify
      ensures config.None? && user.None? && !userSaved && !closing && !isConfigCached
      ensures variableDefaultMap == map[] && effects == []
    {
      this.options := options;
      this.stringify := stringify;
      config := None;
      user := None;
      userSaved := false;
      closing := false;
      isConfigCached := false;
      variableDefaultMap := map[];
      effects := [];
    }

    /** `allFeatures`: the config's features, or none before a config arrives. */
    function AllFeatures(): (r: map<string, ConfigFeature>)
      reads this
      ensures config.None? ==> r == map[]
      ensures config.Some? ==> r == config.value.features
    {
      if config.Some? then config.value.features else map[]
    }

    /** `allVariables`: the config's variables, or none before a config arrives. */
    function AllVariables(): (r: map<string, ConfigVariable>)
      reads this
      ensures config.None? ==> r == map[]
      ensures config.Some? ==> r == config.value.variables
    {
      if config.Some? then config.value.variables else map[]
    }

    /**
     * `variable(key, defaultValue)`: the result `VariableFor` describes; a
     * fresh variable is remembered under its slot; the evaluation is logged.
     * A refused default changes nothing.
     */
    method Variable(key: string, defaultValue: JsValue) returns (r: Result<ClientVariable, ClientError>)
      modifies this
      ensures r == VariableFor(old(variableDefaultMap), config, key, defaultValue, stringify)
      ensures r.Err? ==> variableDefaultMap == old(variableDefaultMap) && effects == old(effects)
      ensures r.Ok? ==> var slot := DefaultKey(defaultValue, stringify);
                        var t := DefaultType(key, defaultValue).value;
                        && variableDefaultMap == (if slot in Entries(old(variableDefaultMap), key) then old(variableDefaultMap)
                                                  else Remember(old(variableDefaultMap), key, slot, r.value))
                        && effects == old(effects) + VariableEffects(old(variableDefaultMap), config, key, defaultValue, t, r.value, options, slot)
      ensures config == old(config) && user == old(user) && userSaved == old(userSaved)
      ensures closing == old(closing) && isConfigCached == old(isConfigCached)
    {
      var typed := DefaultType(key, defaultValue);
      if typed.Err? {
        return Err(typed.error);
      }
      var t := typed.value;
      var slot := DefaultKey(defaultValue, stringify);
      var table := variableDefaultMap;
      var entries := Entries(table, key);
      var v: ClientVariable;
      if slot in entries {
        v := entries[slot];
      } else {
        v := Resolve(config, key, defaultValue, t);
        variableDefaultMap := table[key := entries[slot := v]];
      }
      effects := effects + VariableEffects(table, config, key, defaultValue, t, v, options, slot);
      r := Ok(v);
    }

    /**
     * `handleConfigReceived`: the config is replaced and saved; a new or not
     * yet saved user is stored (and, when not anonymous and edgeDB is on for
     * both project and client, saved as an entity); feature and variable
     * updates are always emitted, `configUpdated` only for a changed etag.
     */
    method HandleConfigReceived(newConfig: ClientConfig, newUser: PopulatedUser, dateFetched: int)
      modifies this
      ensures config == Some(newConfig) && !isConfigCached
      ensures user == Some(newUser) && userSaved
      ensures effects == old(effects) + [SaveConfig(newConfig, newUser.userId, dateFetched)]
                         + (if old(user) != Some(newUser) || !old(userSaved)
                            then UserSaveEffects(newUser, newConfig, options.enableEdgeDb) else [])
                         + UpdateEffects(old(config), newConfig)
      ensures variableDefaultMap == old(variableDefaultMap) && closing == old(closing)
    {
      var oldConfig := config;
      config := Some(newConfig);
      var log := [SaveConfig(newConfig, newUser.userId, dateFetched)];
      isConfigCached := false;

      if user != Some(newUser) || !userSaved {
        user := Some(newUser);
        log := log + UserSaveEffects(newUser, newConfig, options.enableEdgeDb);
        userSaved := true;
      }

      effects := effects + log + UpdateEffects(oldConfig, newConfig);
    }

    /** `onSSEMessage`: hands on what `SseEffects` says; the client state is otherwise untouched. */
    method OnSseMessage(message: SseMessage)
      modifies this
      ensures effects == old(effects) + SseEffects(config, message)
      ensures config == old(config) && user == old(user) && userSaved == old(userSaved)
      ensures variableDefaultMap == old(variableDefaultMap) && closing == old(closing)
      ensures isConfigCached == old(isConfigCached)
    {
      match message
      case Unparseable =>
        effects := effects + [UnparseableMessage];
      case Parsed(data) =>
        if data.Some? {
          var d := data.value;
          if !Truthy(d.messageType) || d.messageType == Some("refetchConfig") {
            if config.None? || !Truthy(config.value.etag) || d.etag != config.value.etag {
              effects := effects + [Refetch(true, d.lastModified, d.etag)];
            }
          }
        }
    }

    /**
     * `track`: a closing client only logs an error; with custom events
     * disabled nothing happens; an event without a type is refused;
     * otherwise the event is queued.
     */
    method Track(event: ClientEvent) returns (r: Outcome<ClientError>)
      modifies this
      ensures r.Fail? <==> !old(closing) && !options.disableCustomEventLogging && event.eventType.None?
      ensures r.Fail? ==> r.error == MissingParam("type")
      ensures old(closing) ==> effects == old(effects) + [ClosingError]
      ensures !old(closing) && r.Pass? && !options.disableCustomEventLogging ==> effects == old(effects) + [QueueEvent(event)]
      ensures !old(closing) && (r.Fail? || options.disableCustomEventLogging) ==> effects == old(effects)
      ensures config == old(config) && user == old(user) && userSaved == old(userSaved)
      ensures variableDefaultMap == old(variableDefaultMap) && closing == old(closing)
      ensures isConfigCached == old(isConfigCached)
    {
      if closing {
        effects := effects + [ClosingError];
        return Pass;
      }
      if options.disableCustomEventLogging {
        return Pass;
      }
      if event.eventType.None? {
        return Fail(MissingParam("type"));
      }
      effects := effects + [QueueEvent(event)];
      r := Pass;
    }

    /** `close`: marks the client as closing; what it tears down is outside this model. */
    method Close()
      modifies this
      ensures closing
      ensures config == old(config) && user == old(user) && userSaved == old(userSaved)
      ensures variableDefaultMap == old(variableDefaultMap) && effects == old(effects)
      ensures isConfigCached == old(isConfigCached)
    {
      closing := true;
    }
  }

  /**
   * The etag rules fit together: once a config with an etag has been
   * received, a server-sent event announcing that same etag refetches
   * nothing, and receiving the same config again emits no `configUpdated`.
   */
  method ReceiveThenAnnounce(c: DevCycleClient, newConfig: ClientConfig, u: PopulatedUser, now: int, data: MessageData)
    requires Truthy(newConfig.etag) && data.etag == newConfig.etag
    modifies c
    ensures forall i :: |old(c.effects)| <= i < |c.effects| ==> !c.effects[i].Refetch?
    ensures |c.effects| >= |old(c.effects)| + 3
    ensures c.effects[|c.effects| - 3..] == [SaveConfig(newConfig, u.userId, now),
                                             FeatureUpdates(newConfig.features, newConfig.features),
                                             VariableUpdates(newConfig.variables, newConfig.variables)]
  {
    c.HandleConfigReceived(newConfig, u, now);
    c.OnSseMessage(Parsed(Some(data)));
    c.HandleConfigReceived(newConfig, u, now);
  }
}
