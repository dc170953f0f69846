/**
 * The bacteria form's schema: which fields are required, which are optional and which may also be
 * `null`, and the converter that turns validated form text into a bacteria input. `parseFloat` and
 * `parseInt` (with their conversion of the argument to text) are parameters; `None` stands for `NaN`.
 */
module BacteriaSchema {
  import opened Wrappers
  import opened Values
  import Utils

  /**
   * What a field of the schema accepts: a string of at least one character, a string or nothing, or
   * a string, `null` or nothing.
   */
  datatype Rule = Required(message: string) | Optional | Nullable

  /** The fields of `bacteriaFormSchema` in declaration order, with their rules. */
  const FormFields: seq<(string, Rule)> := [
    ("genus", Required("Genus is required")), ("species", Required("Species is required")),
    ("gram_stain", Required("Gram stain is required")), ("shape", Required("Shape is required")),
    ("name", Optional), ("strain", Optional), ("superkingdom", Optional), ("kingdom", Optional),
    ("phylum", Optional), ("class_name", Optional), ("order", Optional), ("family", Optional),
    ("mobility", Nullable), ("flagellar_presence", Nullable), ("number_of_membranes", Nullable),
    ("oxygen_preference", Nullable), ("optimal_temperature", Nullable), ("temperature_range", Nullable),
    ("habitat", Nullable), ("biotic_relationship", Nullable), ("cell_arrangement", Nullable),
    ("sporulation", Nullable), ("metabolism", Nullable), ("energy_source", Nullable)]

  /** The names of the schema's fields. */
  const FieldNames: set<string> := set i | 0 <= i < |FormFields| :: FormFields[i].0

  /** The four fields every valid form must fill in. */
  const RequiredFields: set<string> := {"genus", "species", "gram_stain", "shape"}

  /** Whether a field with this rule accepts the value (an absent field reads as `undefined`). */
  predicate Accepts(rule: Rule, v: Value) {
    match rule
    case Required(_) => v.Str? && |v.s| >= 1
    case Optional => v == Undefined || v.Str?
    case Nullable => v == Undefined || v == Null || v.Str?
  }

  /** The names of the fields among `fields` whose value in `values` their rule rejects, in order. */
  function Issues(values: Record, fields: seq<(string, Rule)>): (r: seq<string>)
    ensures |r| <= |fields|
  {
    if fields == [] then []
    else
      var rest := Issues(values, fields[1..]);
      if Accepts(fields[0].1, Get(values, fields[0].0)) then rest else [fields[0].0] + rest
  }

  /** A field is reported exactly when its rule rejects its value. */
  lemma {:induction false} IssuesAreRejections(values: Record, fields: seq<(string, Rule)>, name: string)
    ensures name in Issues(values, fields) <==>
      exists i :: 0 <= i < |fields| && fields[i].0 == name && !Accepts(fields[i].1, Get(values, name))
  {
    if fields != [] {
      IssuesAreRejections(values, fields[1..], name);
      if name in Issues(values, fields) && name !in Issues(values, fields[1..]) {
        assert fields[0].0 == name && !Accepts(fields[0].1, Get(values, name));
      }
      if exists i :: 0 <= i < |fields| && fields[i].0 == name && !Accepts(fields[i].1, Get(values, name)) {
        var i :| 0 <= i < |fields| && fields[i].0 == name && !Accepts(fields[i].1, Get(values, name));
        if i > 0 {
          assert fields[1..][i - 1] == fields[i];
        }
      }
    }
  }

  /**
   * `bacteriaFormSchema.safeParse`: the form data restricted to the schema's fields when every field
   * passes its rule, and otherwise the fields that fail.
   */
  function ValidateForm(values: Record): (r: Result<Record, seq<string>>)
    ensures r.Ok? ==> r.value.Keys == values.Keys * FieldNames
    ensures r.Ok? ==> forall k :: k in r.value ==> r.value[k] == values[k]
    ensures r.Err? ==> r.error != []
  {
    var issues := Issues(values, FormFields);
    if issues == [] then Ok(map k | k in values && k in FieldNames :: values[k]) else Err(issues)
  }

  /** Every field of the schema accepts its value. */
  predicate AllAccepted(values: Record, fields: seq<(string, Rule)>) {
    forall i :: 0 <= i < |fields| ==> Accepts(fields[i].1, Get(values, fields[i].0))
  }

  /** No field is reported exactly when every field accepts its value. */
  lemma {:induction false} NoIssuesMeansAccepted(values: Record, fields: seq<(string, Rule)>)
    ensures Issues(values, fields) == [] <==> AllAccepted(values, fields)
  {
    if fields != [] {
      NoIssuesMeansAccepted(values, fields[1..]);
      if AllAccepted(values, fields[1..]) && Accepts(fields[0].1, Get(values, fields[0].0)) {
        forall i | 0 <= i < |fields| ensures Accepts(fields[i].1, Get(values, fields[i].0)) {
          if i > 0 { assert fields[i] == fields[1..][i - 1]; }
        }
      }
      if AllAccepted(values, fields) {
        forall i | 0 <= i < |fields| - 1 ensures Accepts(fields[1..][i].1, Get(values, fields[1..][i].0)) {
          assert fields[1..][i] == fields[i + 1];
        }
      }
    }
  }

  /**
   * A form is valid exactly when every field accepts its value; an invalid form is reported with
   * exactly the fields whose rule rejects their value.
   */
  lemma ValidateFormAccepts(values: Record)
    ensures ValidateForm(values).Ok? <==> AllAccepted(values, FormFields)
    ensures ValidateForm(values).Err? ==> forall name :: name in ValidateForm(values).error <==>
      exists i :: 0 <= i < |FormFields| && FormFields[i].0 == name && !Accepts(FormFields[i].1, Get(values, name))
  {
    NoIssuesMeansAccepted(values, FormFields);
    forall name ensures name in Issues(values, FormFields) <==>
      exists i :: 0 <= i < |FormFields| && FormFields[i].0 == name && !Accepts(FormFields[i].1, Get(values, name))
    {
      IssuesAreRejections(values, FormFields, name);
    }
  }

  /** The first four fields are the required ones, and only they are. */
  lemma RequiredLayout()
    ensures |FormFields| == 24
    ensures forall k :: 0 <= k < 4 ==> FormFields[k].1.Required?
    ensures forall k :: 4 <= k < |FormFields| ==> !FormFields[k].1.Required?
    ensures forall f :: f in RequiredFields <==> exists k :: 0 <= k < 4 && FormFields[k].0 == f
    ensures forall k :: 4 <= k < |FormFields| ==> FormFields[k].0 !in RequiredFields
  {
    assert FormFields[0].0 == "genus" && FormFields[1].0 == "species";
    assert FormFields[2].0 == "gram_stain" && FormFields[3].0 == "shape";
  }

  /** A form whose genus, species, gram stain or shape is not a non-empty string is rejected, naming that field. */
  lemma RequiredFieldMustBeFilled(values: Record, f: string)
    requires f in RequiredFields && !(Get(values, f).Str? && |Get(values, f).s| >= 1)
    ensures ValidateForm(values).Err? && f in ValidateForm(values).error
  {
    RequiredLayout();
    var k :| 0 <= k < 4 && FormFields[k].0 == f;
    ValidateFormAccepts(values);
  }

  /** Filling in the four required fields is enough: every other field may be left out. */
  lemma OtherFieldsAreOptional(values: Record)
    requires forall f :: f in RequiredFields ==> Get(values, f).Str? && |Get(values, f).s| >= 1
    requires forall f :: f in values ==> f in RequiredFields
    ensures ValidateForm(values).Ok?
  {
    RequiredLayout();
    forall i | 0 <= i < |FormFields| ensures Accepts(FormFields[i].1, Get(values, FormFields[i].0)) {
      if i < 4 {
        assert FormFields[i].0 in RequiredFields;
      } else {
        assert FormFields[i].0 !in values;
      }
    }
    ValidateFormAccepts(values);
  }

  /**
   * The answer the converter reads from a two-choice field: true for the `yes` text, false for the `no`
   * text, `null` for anything else. Mobility is read with "Motile"/"Non-motile", flagellar presence and
   * sporulation with "Yes"/"No".
   */
  function Choice(v: Value, yes: string, no: string): (r: Value)
    requires yes != no
    ensures r == Bool(true) <==> v == Str(yes)
    ensures r == Bool(false) <==> v == Str(no)
    ensures r == Null <==> v != Str(yes) && v != Str(no)
  {
    if v == Str(yes) then Bool(true) else if v == Str(no) then Bool(false) else Null
  }

  /** A parsed number written back: the number, or `NaN` when the text does not parse. */
  function Parsed(x: Option<real>): Value {
    match x
    case None => NaN
    case Some(v) => Num(v)
  }

  /** A parsed integer written back: the number, or `NaN` when the text does not parse. */
  function ParsedInt(x: Option<int>): Value {
    match x
    case None => NaN
    case Some(n) => Num(n as real)
  }

  /** The five keys the converter rewrites. */
  const ConvertedKeys: set<string> :=
    {"mobility", "flagellar_presence", "sporulation", "optimal_temperature", "number_of_membranes"}

  /**
   * `convertFormValuesToBacteriaInput`: a copy of the form values with mobility read as Motile/Non-motile,
   * flagellar presence and sporulation read as Yes/No, and the optimal temperature and number of
   * membranes parsed when they are truthy and `null` otherwise.
   */
  function ConvertFormValues(values: Record, parseFloat: Value -> Option<real>, parseInt: Value -> Option<int>)
    : (r: Record)
    ensures "mobility" in r && r["mobility"] == Choice(Get(values, "mobility"), "Motile", "Non-motile")
    ensures "flagellar_presence" in r && r["flagellar_presence"] == Choice(Get(values, "flagellar_presence"), "Yes", "No")
    ensures "sporulation" in r && r["sporulation"] == Choice(Get(values, "sporulation"), "Yes", "No")
    ensures "optimal_temperature" in r && r["optimal_temperature"] ==
      if JsTruthy(Get(values, "optimal_temperature")) then Parsed(parseFloat(Get(values, "optimal_temperature"))) else Null
    ensures "number_of_membranes" in r && r["number_of_membranes"] ==
      if JsTruthy(Get(values, "number_of_membranes")) then ParsedInt(parseInt(Get(values, "number_of_membranes"))) else Null
  {
    var temperature := Get(values, "optimal_temperature");
    var membranes := Get(values, "number_of_membranes");
    values["mobility" := Choice(Get(values, "mobility"), "Motile", "Non-motile")]
          ["flagellar_presence" := Choice(Get(values, "flagellar_presence"), "Yes", "No")]
          ["sporulation" := Choice(Get(values, "sporulation"), "Yes", "No")]
          ["optimal_temperature" := if JsTruthy(temperature) then Parsed(parseFloat(temperature)) else Null]
          ["number_of_membranes" := if JsTruthy(membranes) then ParsedInt(parseInt(membranes)) else Null]
  }

  /** The converter adds the five keys it rewrites and copies every other field unchanged. */
  lemma ConvertCopiesOtherFields(values: Record, parseFloat: Value -> Option<real>, parseInt: Value -> Option<int>)
    ensures var r := ConvertFormValues(values, parseFloat, parseInt);
      && r.Keys == values.Keys + ConvertedKeys
      && forall k :: k in values && k !in ConvertedKeys ==> r[k] == values[k]
  {
  }

  /**
   * The prediction form's mobility select offers "Yes" and "No"; the converter reads neither, so either
   * choice converts to `null`, while the sanitiser reads both.
   */
  lemma ConverterIgnoresFormMobility(values: Record, parseFloat: Value -> Option<real>, parseInt: Value -> Option<int>)
    requires Get(values, "mobility") in {Str("Yes"), Str("No")}
    ensures ConvertFormValues(values, parseFloat, parseInt)["mobility"] == Null
    ensures Utils.SanitizeBacteriaPredictionInput(values, parseFloat)["mobility"] != Null
  {
  }

  /** On flagellar presence and sporulation the converter and the sanitiser agree for every form choice. */
  lemma ConverterAgreesWithSanitiser(values: Record, parseFloat: Value -> Option<real>,
                                     parseInt: Value -> Option<int>, k: string)
    requires k in {"flagellar_presence", "sporulation"}
    requires Get(values, k) in {Str("Yes"), Str("No"), Str("")}
    ensures ConvertFormValues(values, parseFloat, parseInt)[k] == Utils.SanitizeBacteriaPredictionInput(values, parseFloat)[k]
  {
    var converted := ConvertFormValues(values, parseFloat, parseInt);
    var sanitised := Utils.SanitizeBacteriaPredictionInput(values, parseFloat);
    assert converted[k] == Choice(Get(values, k), "Yes", "No");
    assert sanitised[k] == OfOptionBool(Utils.ParseOptionalBoolean(Get(values, k)));
  }
}
