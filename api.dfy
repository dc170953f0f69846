/**
 * The client's API gateway: the `ApiError` built from an axios error, the rethrow rule shared by every
 * call, the cleaning of list parameters, and the checks and coercion applied to a prediction response.
 * The HTTP transport is a parameter: a call's outcome is either the response or what was thrown.
 */
module Api {
  import opened Wrappers
  import opened Values

  /** A response as axios hands it over: the status code and the decoded body. */
  datatype HttpResponse = HttpResponse(status: int, data: Value)

  /** An `AxiosError`: its message and, when the server answered, its response. */
  datatype AxiosError = AxiosError(message: string, response: Option<HttpResponse>)

  /** `ApiError`: its name, the message, the status code and the body of the failed response. */
  datatype ApiError = ApiError(name: string, message: string, status: int, data: Value)

  /** What a call can throw. */
  datatype Thrown =
    | Axios(axios: AxiosError)   // an error raised by axios
    | Api(api: ApiError)         // an `ApiError`
    | Error(message: string)     // any other `Error`, with its message
    | TypeError(message: string) // a property read of `null`/`undefined`, or a property set on a primitive
    | Raw(value: Value)          // a thrown value that is not an `Error`

  /** `err instanceof Error ? err.message : undefined`: every kind of error but a raw thrown value has a message. */
  function ErrorMessage(t: Thrown): (m: Option<string>)
    ensures m.None? <==> t.Raw?
  {
    match t
    case Axios(e) => Some(e.message)
    case Api(e) => Some(e.message)
    case Error(message) => Some(message)
    case TypeError(message) => Some(message)
    case Raw(_) => None
  }

  /**
   * What the JavaScript engine supplies and the model leaves open: `String(v)` for a value that is not a
   * string, and the message of the `TypeError` raised at a property name.
   */
  datatype Engine = Engine(show: Value -> string, typeErrorText: string -> string)

  /** `String(v)`: a string is its own text. */
  function JsString(engine: Engine, v: Value): string {
    if v.Str? then v.s else engine.show(v)
  }

  /** The status an `ApiError` takes: the response's status when there is one and it is not 0, else 500. */
  function ErrorStatus(e: AxiosError): (status: int)
    ensures status != 0
    ensures e.response.Some? && e.response.value.status != 0 ==> status == e.response.value.status
    ensures e.response.None? || e.response.value.status == 0 ==> status == 500
  {
    if e.response.Some? && e.response.value.status != 0 then e.response.value.status else 500
  }

  /** The body an `ApiError` keeps: the response's body when it is truthy, else an empty object. */
  function ErrorData(e: AxiosError): (data: Value)
    ensures JsTruthy(data)
    ensures e.response.Some? && JsTruthy(e.response.value.data) ==> data == e.response.value.data
    ensures e.response.None? || !JsTruthy(e.response.value.data) ==> data == Obj(map[])
  {
    if e.response.Some? && JsTruthy(e.response.value.data) then e.response.value.data else Obj(map[])
  }

  /** `new ApiError(error)`: the axios error's message, with the status and the body defaulted. */
  function NewApiError(e: AxiosError): (r: ApiError)
    ensures r.name == "ApiError" && r.message == e.message
    ensures r.status != 0 && JsTruthy(r.data)
  {
    ApiError("ApiError", e.message, ErrorStatus(e), ErrorData(e))
  }

  /** The defaults apply once: an error rebuilt from an `ApiError`'s own status and body is that error. */
  lemma ApiErrorDefaultsSettle(e: AxiosError)
    ensures var a := NewApiError(e);
      NewApiError(AxiosError(e.message, Some(HttpResponse(a.status, a.data)))) == a
  {
  }

  /** The `catch` of every call: an axios error is rethrown as an `ApiError`, anything else unchanged. */
  function Rethrow(t: Thrown): (r: Thrown)
    ensures !r.Axios?
    ensures t.Axios? ==> r == Api(NewApiError(t.axios))
    ensures !t.Axios? ==> r == t
  {
    if t.Axios? then Api(NewApiError(t.axios)) else t
  }

  /** Rethrowing is idempotent: what a call throws passes unchanged through a second `catch`. */
  lemma RethrowIdempotent(t: Thrown)
    ensures Rethrow(Rethrow(t)) == Rethrow(t)
  {
  }

  /** `v.k`: `None` stands for the `TypeError` thrown when `v` is `null` or `undefined`. */
  function Prop(v: Value, k: string): (r: Option<Value>)
    ensures r.None? <==> v == Null || v == Undefined
    ensures v.Obj? ==> r == Some(Get(v.fields, k))
  {
    match v
    case Null => None
    case Undefined => None
    case Obj(fields) => Some(Get(fields, k))
    case _ => Some(Undefined)
  }

  /** `v?.k`: `undefined` when `v` is `null` or `undefined`. */
  function OptProp(v: Value, k: string): Value {
    match Prop(v, k)
    case None => Undefined
    case Some(x) => x
  }

  /** The message of the error thrown for a status outside 2xx: `error.detail` when truthy, else a fixed text. */
  function StatusErrorMessage(body: Value): (r: Option<Value>)
    ensures r.Some? ==> JsTruthy(r.value)
  {
    match Prop(body, "error")
    case None => None
    case Some(err) =>
      var detail := OptProp(err, "detail");
      Some(if JsTruthy(detail) then detail else Str("API request failed"))
  }

  /**
   * `predictPathogenicity`: a status outside 2xx throws an `Error` carrying `error.detail` or "API request
   * failed"; otherwise the payload `data.data` is returned, its `similar_bacteria` replaced by `[]` when it
   * is not an array. Reading a property of `null` or `undefined` throws a `TypeError`, and setting one on
   * a primitive throws one too (module code is strict). Whatever is thrown passes through `Rethrow`.
   */
  function PredictPathogenicity(outcome: Result<HttpResponse, Thrown>, engine: Engine): (r: Result<Value, Thrown>)
    ensures r.Err? ==> !r.error.Axios?
    ensures outcome.Err? ==> r == Err(Rethrow(outcome.error))
  {
    match outcome
    case Err(t) => Err(Rethrow(t))
    case Ok(response) =>
      if !(200 <= response.status < 300) then
        match StatusErrorMessage(response.data)
        case None => Err(TypeError(engine.typeErrorText("error")))
        case Some(message) => Err(Error(JsString(engine, message)))
      else
        match Prop(response.data, "data")
        case None => Err(TypeError(engine.typeErrorText("data")))
        case Some(result) =>
          match Prop(result, "similar_bacteria")
          case None => Err(TypeError(engine.typeErrorText("similar_bacteria")))
          case Some(similar) =>
            if similar.Arr? || result.Arr? then Ok(result)
            else if result.Obj? then Ok(Obj(result.fields["similar_bacteria" := Arr([])]))
            else Err(TypeError(engine.typeErrorText("similar_bacteria")))
  }

  /**
   * A 2xx response whose payload is an object yields that object with `similar_bacteria` an array: the
   * same array when it was one, `[]` otherwise, and every other field unchanged.
   */
  lemma PredictionHasSimilarList(response: HttpResponse, engine: Engine)
    requires 200 <= response.status < 300
    requires response.data.Obj? && Get(response.data.fields, "data").Obj?
    ensures var result := Get(response.data.fields, "data").fields;
      var r := PredictPathogenicity(Ok(response), engine);
      && r.Ok? && r.value.Obj?
      && r.value.fields.Keys == result.Keys + {"similar_bacteria"}
      && (forall k :: k in result && k != "similar_bacteria" ==> r.value.fields[k] == result[k])
      && r.value.fields["similar_bacteria"] ==
           (if Get(result, "similar_bacteria").Arr? then result["similar_bacteria"] else Arr([]))
  {
  }

  /**
   * A status outside 2xx never yields a result: it throws an `Error` whose message is the text of
   * `error.detail`, or "API request failed" when that is falsy.
   */
  lemma FailedStatusThrows(response: HttpResponse, engine: Engine)
    requires !(200 <= response.status < 300)
    ensures PredictPathogenicity(Ok(response), engine).Err?
    ensures response.data.Obj? ==> var detail := OptProp(Get(response.data.fields, "error"), "detail");
      PredictPathogenicity(Ok(response), engine) ==
        Err(Error(if JsTruthy(detail) then JsString(engine, detail) else "API request failed"))
  {
  }

  /** A parameter value `getBacteriaList` sends: neither `undefined`, `null` nor "". */
  predicate Kept(v: Value) {
    v != Undefined && v != Null && v != Str("")
  }

  /** The parameters left after cleaning the entries, later entries overwriting earlier ones. */
  function CleanedParams(entries: seq<(string, Value)>): (r: Record)
    ensures forall k :: k in r ==> Kept(r[k])
  {
    if entries == [] then map[]
    else
      var m := CleanedParams(entries[..|entries| - 1]);
      var last := entries[|entries| - 1];
      if Kept(last.1) then m[last.0 := last.1] else m
  }

  /** The keys of an object's entries are distinct. */
  predicate DistinctKeys(entries: seq<(string, Value)>) {
    forall i, j :: 0 <= i < j < |entries| ==> entries[i].0 != entries[j].0
  }

  /**
   * Cleaning drops exactly the parameters that are `undefined`, `null` or "", and keeps every other one
   * with its value (`false` and `0` included).
   */
  lemma {:induction false} CleanedParamsExact(entries: seq<(string, Value)>)
    requires DistinctKeys(entries)
    ensures forall i :: 0 <= i < |entries| ==>
      (entries[i].0 in CleanedParams(entries) <==> Kept(entries[i].1))
    ensures forall i :: 0 <= i < |entries| && Kept(entries[i].1) ==> CleanedParams(entries)[entries[i].0] == entries[i].1
    ensures forall k :: k in CleanedParams(entries) ==> exists i :: 0 <= i < |entries| && entries[i].0 == k
  {
    if entries != [] {
      var init := entries[..|entries| - 1];
      assert DistinctKeys(init) by {
        forall i, j | 0 <= i < j < |init| ensures init[i].0 != init[j].0 {
          assert init[i] == entries[i] && init[j] == entries[j];
        }
      }
      CleanedParamsExact(init);
      forall k | k in CleanedParams(entries) ensures exists i :: 0 <= i < |entries| && entries[i].0 == k {
        if k in CleanedParams(init) {
          var i :| 0 <= i < |init| && init[i].0 == k;
          assert entries[i] == init[i];
        } else {
          assert entries[|entries| - 1].0 == k;
        }
      }
      forall i | 0 <= i < |entries| - 1
        ensures (entries[i].0 in CleanedParams(entries) <==> Kept(entries[i].1))
        ensures Kept(entries[i].1) ==> CleanedParams(entries)[entries[i].0] == entries[i].1
      {
        assert entries[i] == init[i];
      }
    }
  }

  /** `getBacteriaList` after the request: the response body, or what the call throws, rethrown. */
  function ListOutcome(outcome: Result<HttpResponse, Thrown>): (r: Result<Value, Thrown>)
    ensures r.Err? ==> !r.error.Axios?
    ensures outcome.Ok? ==> r == Ok(outcome.value.data)
  {
    match outcome
    case Ok(response) => Ok(response.data)
    case Err(t) => Err(Rethrow(t))
  }

  /**
   * `getBacteriaList`: copy every entry that is not `undefined`, `null` or "" into the query parameters,
   * send them through `transport`, and return the response body or rethrow what the call throws.
   */
  method GetBacteriaList(entries: seq<(string, Value)>, transport: Record -> Result<HttpResponse, Thrown>)
    returns (sent: Record, r: Result<Value, Thrown>)
    ensures sent == CleanedParams(entries)
    ensures r == ListOutcome(transport(sent))
  {
    sent := map[];
    for i := 0 to |entries|
      invariant sent == CleanedParams(entries[..i])
    {
      assert entries[..i + 1][..i] == entries[..i];
      var (key, value) := entries[i];
      if value != Undefined && value != Null && value != Str("") {
        sent := sent[key := value];
      }
    }
    assert entries[..|entries|] == entries;
    r := ListOutcome(transport(sent));
  }
}
