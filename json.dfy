/**
 * The two value worlds of the repository.
 *
 * `Json` is a parsed config document as the AssemblyScript engine holds it:
 * an object keeps its key order in `keys` (new keys are appended by `set`)
 * and its members in `fields`, like `JSON.Obj` of assemblyscript-json.
 *
 * `JsValue` is an arbitrary JavaScript value as the TypeScript SDKs see it,
 * including `undefined` and values that are not plain objects.
 */
module Json {
  import opened Wrappers

  datatype Json =
    | JNull
    | JBool(b: bool)
    | JNum(n: real)
    | JStr(s: string)
    | JArr(items: seq<Json>)
    | JObj(keys: seq<string>, fields: map<string, Json>)

  datatype JsValue =
    | Undefined
    | Null
    | Bool(b: bool)
    | Num(n: real)
    | Str(s: string)
    | Arr(elements: seq<JsValue>)
    | Obj(props: map<string, JsValue>)
    | Other   // functions, class instances, dates: not plain objects

  /** Why reading a document failed: the helper that threw and the field it was asked for. */
  datatype ParseError =
    | NotAnObject
    | MissingField(key: string)
    | InvalidField(key: string)
    | UnreadableHash(key: string)
    | IndexOutOfRange(index: int)

  const EmptyObj: Json := JObj([], map[])

  /** `JSON.Obj.set`: a key seen for the first time is appended to the key order. */
  function Set(o: Json, k: string, v: Json): (r: Json)
    requires o.JObj?
    ensures r.JObj? && r.fields == o.fields[k := v]
    ensures r.keys == if k in o.fields then o.keys else o.keys + [k]
  {
    JObj(if k in o.fields then o.keys else o.keys + [k], o.fields[k := v])
  }

  /** Reads a member that must be present, whatever its kind. */
  function GetValue(o: Json, k: string): (r: Result<Json, ParseError>)
    ensures r.Ok? <==> o.JObj? && k in o.fields
    ensures r.Ok? ==> r.value == o.fields[k]
  {
    if o.JObj? && k in o.fields then Ok(o.fields[k]) else Err(MissingField(k))
  }

  /** Reads a member that must be a string. */
  function GetString(o: Json, k: string): (r: Result<string, ParseError>)
    ensures r.Ok? <==> o.JObj? && k in o.fields && o.fields[k].JStr?
    ensures r.Ok? ==> o.fields[k] == JStr(r.value)
  {
    if o.JObj? && k in o.fields && o.fields[k].JStr? then Ok(o.fields[k].s) else Err(MissingField(k))
  }

  /** Reads a member that must be an object. */
  function GetObj(o: Json, k: string): (r: Result<Json, ParseError>)
    ensures r.Ok? <==> o.JObj? && k in o.fields && o.fields[k].JObj?
    ensures r.Ok? ==> r.value == o.fields[k] && r.value.JObj?
  {
    if o.JObj? && k in o.fields && o.fields[k].JObj? then Ok(o.fields[k]) else Err(MissingField(k))
  }

  /** Reads a member that must be an array. */
  function GetArray(o: Json, k: string): (r: Result<seq<Json>, ParseError>)
    ensures r.Ok? <==> o.JObj? && k in o.fields && o.fields[k].JArr?
    ensures r.Ok? ==> o.fields[k] == JArr(r.value)
  {
    if o.JObj? && k in o.fields && o.fields[k].JArr? then Ok(o.fields[k].items) else Err(MissingField(k))
  }

  /**
   * `array.map(parse)` where `parse` may throw: the elements are parsed in
   * order, and the first element that fails aborts the whole parse.
   */
  function ParseAll<T>(items: seq<Json>, parse: Json -> Result<T, ParseError>): (r: Result<seq<T>, ParseError>)
    ensures r.Ok? ==> |r.value| == |items|
    ensures r.Ok? ==> forall i :: 0 <= i < |items| ==> parse(items[i]) == Ok(r.value[i])
    ensures r.Err? ==> exists i :: 0 <= i < |items| && parse(items[i]) == Err(r.error)
                                   && forall j :: 0 <= j < i ==> parse(items[j]).Ok?
  {
    if |items| == 0 then Ok([])
    else
      match parse(items[0])
      case Err(e) => Err(e)
      case Ok(x) =>
        match ParseAll(items[1..], parse)
        case Err(e) =>
          ghost var i :| 0 <= i < |items[1..]| && parse(items[1..][i]) == Err(e)
                         && forall j :: 0 <= j < i ==> parse(items[1..][j]).Ok?;
          assert parse(items[i + 1]) == Err(e);
          Err(e)
        case Ok(xs) => Ok([x] + xs)
  }

  /** `jsonArrFromValueArray`: every element written out, in order. */
  function EmitAll<T>(xs: seq<T>, emit: T -> Json): (r: seq<Json>)
    ensures |r| == |xs| && forall i :: 0 <= i < |xs| ==> r[i] == emit(xs[i])
  {
    seq(|xs|, i requires 0 <= i < |xs| => emit(xs[i]))
  }

  /** Element-wise round trips give a round trip of the whole array. */
  lemma {:induction false} ParseAllEmitAll<T>(xs: seq<T>, parse: Json -> Result<T, ParseError>, emit: T -> Json)
    requires forall i :: 0 <= i < |xs| ==> parse(emit(xs[i])) == Ok(xs[i])
    ensures ParseAll(EmitAll(xs, emit), parse) == Ok(xs)
  {
    if |xs| > 0 {
      ParseAllEmitAll(xs[1..], parse, emit);
      assert EmitAll(xs, emit)[1..] == EmitAll(xs[1..], emit);
      assert [xs[0]] + xs[1..] == xs;
    }
  }
}
