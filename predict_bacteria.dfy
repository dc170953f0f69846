/**
 * The prediction page: its four pieces of state, `handleSubmit`, which fills in a temporary bacteria id,
 * sanitises the form data, calls the gateway and records the result or the error, and
 * `handleNewPrediction`, which returns to the form. The clock (`Date.now()`) and the transport are
 * parameters.
 */
module PredictBacteria {
  import opened Wrappers
  import opened Values
  import Text
  import Utils
  import Api

  /** The id used when the form leaves `bacteria_id` empty: "TEMP-" followed by the clock in milliseconds. */
  function TempId(now: nat): (id: string)
    ensures |id| > 5 && id[..5] == "TEMP-"
  {
    "TEMP-" + Text.ShowNat(now)
  }

  /** `{ ...data, bacteria_id: data.bacteria_id || "TEMP-" + now }`. */
  function WithBacteriaId(data: Record, now: nat): (r: Record)
    ensures r.Keys == data.Keys + {"bacteria_id"}
    ensures forall k :: k in data && k != "bacteria_id" ==> r[k] == data[k]
    ensures JsTruthy(r["bacteria_id"])
    ensures JsTruthy(Get(data, "bacteria_id")) ==> r["bacteria_id"] == data["bacteria_id"]
    ensures !JsTruthy(Get(data, "bacteria_id")) ==> r["bacteria_id"] == Str(TempId(now))
  {
    var id := Get(data, "bacteria_id");
    data["bacteria_id" := if JsTruthy(id) then id else Str(TempId(now))]
  }

  /** The record `handleSubmit` sends: the form data with its id filled in, then sanitised. */
  function Submitted(data: Record, now: nat, parseFloat: Value -> Option<real>): Record {
    Utils.SanitizeBacteriaPredictionInput(WithBacteriaId(data, now), parseFloat)
  }

  /** The request always carries a non-empty bacteria id: the user's own when given, else a temporary one. */
  lemma SubmittedHasId(data: Record, now: nat, parseFloat: Value -> Option<real>)
    ensures var sent := Submitted(data, now, parseFloat);
      && "bacteria_id" in sent && JsTruthy(sent["bacteria_id"])
      && (JsTruthy(Get(data, "bacteria_id")) ==> sent["bacteria_id"] == data["bacteria_id"])
      && (!JsTruthy(Get(data, "bacteria_id")) ==> sent["bacteria_id"] == Str(TempId(now)))
  {
    var withId := WithBacteriaId(data, now);
    assert "bacteria_id" !in Utils.SanitizedKeys;
  }

  /** The message recorded for a failed prediction: the error's message, or a fixed text for a non-`Error`. */
  function FailureMessage(t: Api.Thrown): (m: string)
    ensures !t.Raw? ==> Some(m) == Api.ErrorMessage(t)
    ensures t.Raw? ==> m == "Unknown error occurred"
  {
    match Api.ErrorMessage(t)
    case None => "Unknown error occurred"
    case Some(m) => m
  }

  /** The prediction page's state and its handlers. */
  class PredictView {
    var isLoading: bool
    var predictionResult: Option<Value>
    var activeTab: string
    var error: Option<string>

    /** The state on first render: not loading, no result, the form tab, no error. */
    constructor ()
      ensures !isLoading && predictionResult.None? && activeTab == "form" && error.None?
    {
      isLoading, predictionResult, activeTab, error := false, None, "form", None;
    }

    /**
     * The synchronous start of `handleSubmit`, up to the request: loading, no error, and the form data
     * with its id filled in and sanitised as the record to send.
     */
    method StartSubmit(data: Record, now: nat, parseFloat: Value -> Option<real>) returns (sent: Record)
      modifies this
      ensures sent == Submitted(data, now, parseFloat)
      ensures isLoading && error.None?
      ensures predictionResult == old(predictionResult) && activeTab == old(activeTab)
    {
      isLoading := true;
      error := None;
      sent := Utils.SanitizeBacteriaPredictionInput(WithBacteriaId(data, now), parseFloat);
    }

    /**
     * The end of `handleSubmit`, once the gateway has answered: show the result on the result tab, or
     * record the error and keep the previous result and tab; loading ends whatever the outcome.
     */
    method Settle(r: Result<Value, Api.Thrown>)
      modifies this
      ensures !isLoading
      ensures r.Ok? ==> predictionResult == Some(r.value) && activeTab == "result" && error == old(error)
      ensures r.Err? ==>
        && error == Some(FailureMessage(r.error))
        && predictionResult == old(predictionResult) && activeTab == old(activeTab)
    {
      match r {
        case Ok(result) =>
          predictionResult := Some(result);
          activeTab := "result";
        case Err(t) =>
          error := Some(FailureMessage(t));
      }
      isLoading := false;
    }

    /**
     * `handleSubmit`: start, send the record through `transport` to the gateway's `predictPathogenicity`,
     * and settle with its outcome.
     */
    method HandleSubmit(data: Record, now: nat, parseFloat: Value -> Option<real>,
                        transport: Record -> Result<Api.HttpResponse, Api.Thrown>, engine: Api.Engine)
      returns (sent: Record)
      modifies this
      ensures sent == Submitted(data, now, parseFloat)
      ensures !isLoading
      ensures var r := Api.PredictPathogenicity(transport(sent), engine);
        match r
        case Ok(result) => predictionResult == Some(result) && activeTab == "result" && error.None?
        case Err(t) =>
          && error == Some(FailureMessage(t))
          && predictionResult == old(predictionResult) && activeTab == old(activeTab)
    {
      sent := StartSubmit(data, now, parseFloat);
      Settle(Api.PredictPathogenicity(transport(sent), engine));
    }

    /** `handleNewPrediction`: back to the form tab; the last result stays. */
    method HandleNewPrediction()
      modifies this
      ensures activeTab == "form"
      ensures isLoading == old(isLoading) && predictionResult == old(predictionResult) && error == old(error)
    {
      activeTab := "form";
    }
  }
}
