/**
 * The client's input normalisers: the tri-state boolean and optional-number parsers, the sanitiser the
 * prediction form's values go through before they are sent, and default filling for partial objects.
 * `parseFloat` (with its conversion of the argument to text) is a parameter; `None` stands for `NaN`.
 */
module Utils {
  import opened Wrappers
  import opened Values

  /** The texts `parseOptionalBoolean` reads as true, and those it reads as false (compared with `===`). */
  const TrueWords: set<Value> := {Str("Yes"), Str("true"), Str("True")}
  const FalseWords: set<Value> := {Str("No"), Str("false"), Str("False")}

  /**
   * `parseOptionalBoolean`: true for "Yes", "true" and "True", false for "No", "false" and "False", and
   * `null` for every other input, `null`, `undefined` and "" included.
   */
  function ParseOptionalBoolean(value: Value): (r: Option<bool>)
    ensures r == Some(true) <==> value in TrueWords
    ensures r == Some(false) <==> value in FalseWords
    ensures r.None? <==> value !in TrueWords + FalseWords
  {
    if value == Str("Yes") || value == Str("true") || value == Str("True") then Some(true)
    else if value == Str("No") || value == Str("false") || value == Str("False") then Some(false)
    else None
  }

  /** The value a Yes/No select holds for a tri-state answer: "Yes", "No", or "" when nothing is chosen. */
  function YesNoChoice(b: Option<bool>): Value {
    match b
    case None => Str("")
    case Some(true) => Str("Yes")
    case Some(false) => Str("No")
  }

  /** Reading back a Yes/No select gives the answer it was set to. */
  lemma YesNoChoiceRoundTrip(b: Option<bool>)
    ensures ParseOptionalBoolean(YesNoChoice(b)) == b
  {
  }

  /** The comparison is exact: any other spelling, such as "yes" or "TRUE", is not an answer. */
  lemma ParseOptionalBooleanIsCaseSensitive()
    ensures ParseOptionalBoolean(Str("yes")).None? && ParseOptionalBoolean(Str("TRUE")).None?
    ensures ParseOptionalBoolean(Str("no")).None? && ParseOptionalBoolean(Str("FALSE")).None?
  {
  }

  /** The inputs `parseOptionalNumber` treats as "no number" without parsing them. */
  predicate NoNumber(value: Value) {
    value == Null || value == Undefined || value == Str("")
  }

  /**
   * `parseOptionalNumber`: `null` for `null`, `undefined` and ""; otherwise the number `parseFloat`
   * reads, or `null` when it reads `NaN`.
   */
  function ParseOptionalNumber(value: Value, parseFloat: Value -> Option<real>): (r: Option<real>)
    ensures NoNumber(value) ==> r.None?
    ensures !NoNumber(value) ==> r == parseFloat(value)
  {
    if NoNumber(value) then None else parseFloat(value)
  }

  /** The four keys `sanitizeBacteriaPredictionInput` rewrites. */
  const SanitizedKeys: set<string> := {"optimal_temperature", "mobility", "flagellar_presence", "sporulation"}

  /**
   * `sanitizeBacteriaPredictionInput`: a copy of the form data with the optimal temperature parsed as an
   * optional number and mobility, flagellar presence and sporulation parsed as tri-state booleans; the
   * four keys are present even when the form data lacks them.
   */
  function SanitizeBacteriaPredictionInput(formData: Record, parseFloat: Value -> Option<real>): (r: Record)
    ensures r.Keys == formData.Keys + SanitizedKeys
    ensures forall k :: k in formData && k !in SanitizedKeys ==> r[k] == formData[k]
    ensures r["optimal_temperature"] == OfOptionNum(ParseOptionalNumber(Get(formData, "optimal_temperature"), parseFloat))
    ensures r["mobility"] == OfOptionBool(ParseOptionalBoolean(Get(formData, "mobility")))
    ensures r["flagellar_presence"] == OfOptionBool(ParseOptionalBoolean(Get(formData, "flagellar_presence")))
    ensures r["sporulation"] == OfOptionBool(ParseOptionalBoolean(Get(formData, "sporulation")))
  {
    formData["optimal_temperature" := OfOptionNum(ParseOptionalNumber(Get(formData, "optimal_temperature"), parseFloat))]
            ["mobility" := OfOptionBool(ParseOptionalBoolean(Get(formData, "mobility")))]
            ["flagellar_presence" := OfOptionBool(ParseOptionalBoolean(Get(formData, "flagellar_presence")))]
            ["sporulation" := OfOptionBool(ParseOptionalBoolean(Get(formData, "sporulation")))]
  }

  /** After sanitising, each of the three yes/no fields holds a boolean or `null`, never text. */
  lemma SanitizedFlagsAreBooleans(formData: Record, parseFloat: Value -> Option<real>)
    ensures var r := SanitizeBacteriaPredictionInput(formData, parseFloat);
      && (r["mobility"].Bool? || r["mobility"] == Null)
      && (r["flagellar_presence"].Bool? || r["flagellar_presence"] == Null)
      && (r["sporulation"].Bool? || r["sporulation"] == Null)
  {
  }

  /** A boolean or `null` is not one of the accepted answer texts. */
  lemma ParsedFlagIsNotAnAnswer(v: Value)
    requires v.Bool? || v == Null
    ensures ParseOptionalBoolean(v).None?
  {
  }

  /**
   * Sanitising an already sanitised input is not harmless: a boolean is not one of the accepted texts,
   * so a second pass turns every yes/no answer into `null`.
   */
  lemma SanitizeTwiceDropsAnswers(formData: Record, parseFloat: Value -> Option<real>)
    ensures var twice := SanitizeBacteriaPredictionInput(SanitizeBacteriaPredictionInput(formData, parseFloat), parseFloat);
      twice["mobility"] == Null && twice["flagellar_presence"] == Null && twice["sporulation"] == Null
  {
    var once := SanitizeBacteriaPredictionInput(formData, parseFloat);
    SanitizedFlagsAreBooleans(formData, parseFloat);
    ParsedFlagIsNotAnAnswer(once["mobility"]);
    ParsedFlagIsNotAnAnswer(once["flagellar_presence"]);
    ParsedFlagIsNotAnAnswer(once["sporulation"]);
  }

  /** `ensureDefaultValues`: `{...defaults, ...obj}`, the object's own keys winning over the defaults. */
  function EnsureDefaultValues(obj: Record, defaults: Record): (r: Record)
    ensures r.Keys == obj.Keys + defaults.Keys
    ensures forall k :: k in obj ==> r[k] == obj[k]
    ensures forall k :: k in defaults && k !in obj ==> r[k] == defaults[k]
  {
    defaults + obj
  }

  /** Filling in defaults a second time changes nothing. */
  lemma EnsureDefaultValuesIdempotent(obj: Record, defaults: Record)
    ensures EnsureDefaultValues(EnsureDefaultValues(obj, defaults), defaults) == EnsureDefaultValues(obj, defaults)
  {
  }

  /** An object that already has every default key is returned as it is. */
  lemma CompleteObjectUnchanged(obj: Record, defaults: Record)
    requires defaults.Keys <= obj.Keys
    ensures EnsureDefaultValues(obj, defaults) == obj
  {
  }
}
