/**
 * The custom-data validator the shared types use for `customData` and
 * `privateCustomData`: a plain object whose every top-level value is a
 * string, a number, a boolean or null.
 *
 * A JavaScript object is a `JsValue.Obj`, a map from property name to
 * value, so the order in which `for..in` visits the keys cannot change the
 * verdict.
 */
module CustomDataValidator {
  import opened Json
  import opened Audience

  /** The values a custom-data property may hold; `undefined` is not among them. */
  predicate IsFlatValue(v: JsValue)
  {
    v.Str? || v.Num? || v.Bool? || v.Null?
  }

  /**
   * `validate`: the object check first, then every property in turn.
   * Anything that is not a plain object (`undefined`, null, a primitive, an
   * array, a class instance) is rejected; the empty object is accepted.
   */
  predicate Validate(json: JsValue)
    ensures !json.Obj? ==> !Validate(json)
    ensures json == Obj(map[]) ==> Validate(json)
    ensures Validate(json) ==> forall k :: k in json.props ==> json.props[k] != Undefined
  {
    json.Obj? && forall k :: k in json.props ==> IsFlatValue(json.props[k])
  }

  /** The JavaScript value of one custom-data leaf. */
  function FromCustomValue(c: CustomValue): (v: JsValue)
    ensures IsFlatValue(v)
  {
    match c
    case CStr(s) => Str(s)
    case CNum(n) => Num(n)
    case CBool(b) => Bool(b)
    case CNull => Null
  }

  /** The custom-data leaf a flat value stands for. */
  function ToCustomValue(v: JsValue): (c: CustomValue)
    requires IsFlatValue(v)
    ensures FromCustomValue(c) == v
  {
    match v
    case Str(s) => CStr(s)
    case Num(n) => CNum(n)
    case Bool(b) => CBool(b)
    case Null => CNull
  }

  /** Custom data as the plain object an SDK sends. */
  function FromCustomData(cd: CustomData): (j: JsValue)
    ensures j.Obj? && j.props.Keys == cd.Keys
    ensures forall k :: k in cd ==> j.props[k] == FromCustomValue(cd[k])
  {
    Obj(map k | k in cd :: FromCustomValue(cd[k]))
  }

  /** The custom data a valid object carries. */
  function ToCustomData(json: JsValue): (cd: CustomData)
    requires Validate(json)
    ensures cd.Keys == json.props.Keys
    ensures FromCustomData(cd) == json
  {
    var cd := map k | k in json.props :: ToCustomValue(json.props[k]);
    assert FromCustomData(cd).props == json.props;
    cd
  }

  /** The empty object carries no custom data and is accepted. */
  lemma EmptyObjectIsValid()
    ensures Validate(Obj(map[]))
    ensures ToCustomData(Obj(map[])) == map[]
  {
  }

  /** One property that is `undefined`, an object or an array makes the whole object invalid. */
  lemma OneBadPropertyRejects(json: JsValue, k: string)
    requires json.Obj? && k in json.props
    requires json.props[k].Undefined? || json.props[k].Obj? || json.props[k].Arr? || json.props[k].Other?
    ensures !Validate(json)
  {
  }

  /**
   * The validator accepts exactly the objects that some flat custom data
   * produces: it is the membership test for `CustomData`.
   */
  lemma ValidExactlyForCustomData(json: JsValue)
    ensures Validate(json) <==> exists cd :: FromCustomData(cd) == json
  {
    if Validate(json) {
      var cd := ToCustomData(json);
      assert FromCustomData(cd) == json;
    }
    if exists cd :: FromCustomData(cd) == json {
      var cd :| FromCustomData(cd) == json;
      assert forall k :: k in json.props ==> json.props[k] == FromCustomValue(cd[k]);
    }
  }

  /** Reading custom data back out of the object it produced gives the same data. */
  lemma CustomDataRoundTrip(cd: CustomData)
    ensures Validate(FromCustomData(cd))
    ensures ToCustomData(FromCustomData(cd)) == cd
  {
    var j := FromCustomData(cd);
    var back := ToCustomData(j);
    assert back.Keys == cd.Keys;
    forall k | k in cd
      ensures back[k] == cd[k]
    {
      assert FromCustomValue(back[k]) == j.props[k] == FromCustomValue(cd[k]);
    }
  }
}
