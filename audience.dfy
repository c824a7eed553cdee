/**
 * Users and the audience filter tree a target matches them against.
 *
 * The matcher's own source is not part of this model; what is modelled is the
 * part the bucketing tests pin down: AND/OR combination, per-attribute
 * comparisons, and client custom data filling in the custom-data keys the
 * user does not set during matching.
 */
module Audience {
  import opened Wrappers

  /** A custom-data leaf: custom data is a flat map of these. */
  datatype CustomValue = CStr(s: string) | CNum(n: real) | CBool(b: bool) | CNull

  type CustomData = map<string, CustomValue>

  datatype User = User(
    userId: string,
    attributes: map<string, string>,   // email, country, platformVersion, ...
    customData: CustomData,
    privateCustomData: CustomData)

  datatype Operator = Equal | NotEqual | Exists | NotExists

  datatype Filter =
    | And(children: seq<Filter>)
    | Or(children: seq<Filter>)
    | UserAttribute(name: string, op: Operator, values: seq<string>)
    | CustomDataFilter(dataKey: string, op: Operator, customValues: seq<CustomValue>)

  /** One comparison; an absent attribute only matches the negated operators. */
  predicate Compare<T(==)>(actual: Option<T>, op: Operator, values: seq<T>)
  {
    match op
    case Equal => actual.Some? && actual.value in values
    case NotEqual => actual.None? || actual.value !in values
    case Exists => actual.Some?
    case NotExists => actual.None?
  }

  function Lookup<K, V>(m: map<K, V>, k: K): Option<V>
  {
    if k in m then Some(m[k]) else None
  }

  /**
   * The custom data a filter sees: the user's own custom data over the
   * user's private custom data over the client custom data, which only
   * fills in keys the user does not set. Only the first of these two orders
   * is pinned down by the tests; where private data stands is this model's
   * choice.
   */
  function EffectiveCustomData(user: User, clientData: CustomData): (r: CustomData)
    ensures r.Keys == user.privateCustomData.Keys + user.customData.Keys + clientData.Keys
    ensures forall k :: k in user.customData ==> r[k] == user.customData[k]
    ensures forall k :: k in user.privateCustomData && k !in user.customData ==> r[k] == user.privateCustomData[k]
    ensures forall k :: k in clientData && k !in user.customData && k !in user.privateCustomData ==> r[k] == clientData[k]
  {
    clientData + user.privateCustomData + user.customData
  }

  /** Whether `user` is in the audience `f`; AND of nothing holds, OR of nothing does not. */
  predicate Matches(f: Filter, user: User, clientData: CustomData)
    ensures f == And([]) ==> Matches(f, user, clientData)
    ensures f == Or([]) ==> !Matches(f, user, clientData)
    decreases f
  {
    match f
    case And(cs) => forall i :: 0 <= i < |cs| ==> Matches(cs[i], user, clientData)
    case Or(cs) => exists i :: 0 <= i < |cs| && Matches(cs[i], user, clientData)
    case UserAttribute(name, op, vs) => Compare(Lookup(user.attributes, name), op, vs)
    case CustomDataFilter(k, op, vs) => Compare(Lookup(EffectiveCustomData(user, clientData), k), op, vs)
  }

  /** The user's custom data with the client custom data filling the keys the user does not set. */
  function WithClientDefaults(user: User, clientData: CustomData): User
  {
    user.(customData := (clientData - user.privateCustomData.Keys) + user.customData)
  }

  /** A filter sees the same custom data with client data as the user with client defaults sees without. */
  lemma DefaultsSeeSameCustomData(user: User, clientData: CustomData)
    ensures EffectiveCustomData(user, clientData) == EffectiveCustomData(WithClientDefaults(user, clientData), map[])
  {
  }

  /**
   * Client custom data acts exactly as defaults for the user's own custom
   * data: matching with client data is matching, with no client data, the
   * user whose custom data has the client's entries for the keys the user
   * sets neither publicly nor privately.
   */
  lemma {:induction false} ClientDataActsAsCustomDataDefaults(f: Filter, user: User, clientData: CustomData)
    ensures Matches(f, user, clientData) == Matches(f, WithClientDefaults(user, clientData), map[])
    decreases f
  {
    var merged := WithClientDefaults(user, clientData);
    DefaultsSeeSameCustomData(user, clientData);
    match f
    case And(cs) =>
      forall i | 0 <= i < |cs|
        ensures Matches(cs[i], user, clientData) == Matches(cs[i], merged, map[])
      {
        ClientDataActsAsCustomDataDefaults(cs[i], user, clientData);
      }
    case Or(cs) =>
      forall i | 0 <= i < |cs|
        ensures Matches(cs[i], user, clientData) == Matches(cs[i], merged, map[])
      {
        ClientDataActsAsCustomDataDefaults(cs[i], user, clientData);
      }
    case UserAttribute(_, _, _) =>
    case CustomDataFilter(_, _, _) =>
  }

  /**
   * On a key the user's own custom data sets, a custom-data filter sees the
   * user's value and never the client's.
   */
  lemma UserDataWinsOnCollision(user: User, clientData: CustomData, k: string, op: Operator, vs: seq<CustomValue>)
    requires k in user.customData
    ensures Matches(CustomDataFilter(k, op, vs), user, clientData) == Compare(Some(user.customData[k]), op, vs)
  {
  }

  /**
   * On a key the user sets neither publicly nor privately, a custom-data
   * filter sees the client's value.
   */
  lemma ClientDataFillsAbsentKeys(user: User, clientData: CustomData, k: string, op: Operator, vs: seq<CustomValue>)
    requires k in clientData && k !in user.customData && k !in user.privateCustomData
    ensures Matches(CustomDataFilter(k, op, vs), user, clientData) == Compare(Some(clientData[k]), op, vs)
  {
  }

  /**
   * The client-data scenario of the bucketing tests, against an audience
   * asking for pizza as the food and coffee as the drink: a pizza lover is
   * let in only once the client data supplies the drink, even though the
   * client's food disagrees; a user whose own food is not pizza stays out
   * whatever the client data says.
   */
  lemma PizzaAndCoffeeScenario(food: string, drink: string, pizza: CustomValue, notPizza: CustomValue, coffee: CustomValue)
    requires food != drink && notPizza != pizza
    ensures var audience := And([CustomDataFilter(food, Equal, [pizza]), CustomDataFilter(drink, Equal, [coffee])]);
            var lover := User("client-test", map[], map[food := pizza], map[]);
            var hater := User("hates-pizza", map[], map[food := notPizza], map[]);
            && !Matches(audience, lover, map[])
            && Matches(audience, lover, map[food := notPizza, drink := coffee])
            && !Matches(audience, hater, map[food := pizza, drink := coffee])
  {
    var audience := And([CustomDataFilter(food, Equal, [pizza]), CustomDataFilter(drink, Equal, [coffee])]);
    var lover := User("client-test", map[], map[food := pizza], map[]);
    var hater := User("hates-pizza", map[], map[food := notPizza], map[]);
    assert !Matches(audience.children[1], lover, map[]);
    assert !Matches(audience.children[0], hater, map[food := pizza, drink := coffee]);
  }
}
