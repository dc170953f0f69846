/**
 * The backend's model service: a process-wide singleton that loads a fitted preprocessor and classifier
 * once, aligns input rows with the columns the preprocessor was fitted on, predicts pathogenicity, and
 * ranks stored bacteria by similarity to an input. Unpickling, the preprocessor's transform, the
 * classifier and cosine similarity are parameters; a failure of any of them is an `Err` carrying the
 * exception's text.
 */
module ModelService {
  import opened Wrappers
  import opened Values
  import Text

  /** A fitted pipeline step, and the feature names it records (`feature_names_in_`), if it has them. */
  datatype Component = Component(id: nat, features: Option<seq<string>>)

  /** What the model file unpickles to. */
  datatype Pipeline =
    | Steps(named: map<string, Component>, steps: Option<seq<(string, Component)>>) // has `named_steps`, and maybe `steps`
    | Pair(first: Option<Component>, second: Option<Component>)                    // a 2-tuple
    | Other                                                                          // anything else

  /** `dict.get(k)`. */
  function Lookup(m: map<string, Component>, k: string): Option<Component> {
    if k in m then Some(m[k]) else None
  }

  /** `{step[0]: step[1] for step in steps}`: each name maps to the component of its last occurrence. */
  function StepsDict(steps: seq<(string, Component)>): (d: map<string, Component>)
    ensures d.Keys == set i | 0 <= i < |steps| :: steps[i].0
    ensures forall i :: 0 <= i < |steps| && (forall j :: i < j < |steps| ==> steps[j].0 != steps[i].0) ==>
      d[steps[i].0] == steps[i].1
  {
    if steps == [] then map[]
    else
      var init := steps[..|steps| - 1];
      assert forall i :: 0 <= i < |init| ==> init[i] == steps[i];
      StepsDict(init)[steps[|steps| - 1].0 := steps[|steps| - 1].1]
  }

  /**
   * The preprocessor and classifier a loaded object yields, starting from the current ones: the
   * `named_steps` entries (falling back to `steps` when the named preprocessor is missing), the two
   * halves of a pair in order, and the current ones for any other object or a missing file.
   */
  function Extract(file: Option<Pipeline>, preprocessor: Option<Component>, model: Option<Component>)
    : (Option<Component>, Option<Component>)
  {
    match file
    case None => (preprocessor, model)
    case Some(Steps(named, steps)) =>
      if Lookup(named, "preprocessor").None? && steps.Some? then
        var d := StepsDict(steps.value);
        (Lookup(d, "preprocessor"), Lookup(d, "classifier"))
      else (Lookup(named, "preprocessor"), Lookup(named, "classifier"))
    case Some(Pair(first, second)) => (first, second)
    case Some(Other) => (preprocessor, model)
  }

  /**
   * The fallback to `steps`: a pipeline whose named steps lack a preprocessor takes each component from
   * its step list, where it is found exactly when a step carries its name.
   */
  lemma StepsFallback(named: map<string, Component>, steps: seq<(string, Component)>,
                      preprocessor: Option<Component>, model: Option<Component>)
    requires "preprocessor" !in named
    ensures var r := Extract(Some(Steps(named, Some(steps))), preprocessor, model);
      && (r.0.Some? <==> exists i :: 0 <= i < |steps| && steps[i].0 == "preprocessor")
      && (r.1.Some? <==> exists i :: 0 <= i < |steps| && steps[i].0 == "classifier")
  {
    var d := StepsDict(steps);
    assert Extract(Some(Steps(named, Some(steps))), preprocessor, model) ==
      (Lookup(d, "preprocessor"), Lookup(d, "classifier"));
    if "preprocessor" in d {
      var i :| 0 <= i < |steps| && steps[i].0 == "preprocessor";
    }
    if "classifier" in d {
      var i :| 0 <= i < |steps| && steps[i].0 == "classifier";
    }
  }

  /** A named preprocessor is never overridden by the step list; the classifier then comes from the named steps too. */
  lemma NamedPreprocessorWins(named: map<string, Component>, steps: Option<seq<(string, Component)>>,
                              preprocessor: Option<Component>, model: Option<Component>)
    requires "preprocessor" in named
    ensures Extract(Some(Steps(named, steps)), preprocessor, model) == (Some(named["preprocessor"]), Lookup(named, "classifier"))
  {
  }

  /** A missing file or an unrecognised object leaves both components as they were. */
  lemma NothingLoadedKeepsState(file: Option<Pipeline>, preprocessor: Option<Component>, model: Option<Component>)
    requires file.None? || file == Some(Other)
    ensures Extract(file, preprocessor, model) == (preprocessor, model)
  {
  }

  /** The raw cells of a row built into a frame; `Raw` keeps pandas' own column order. */
  datatype Frame =
    | Raw(rows: seq<Record>)                              // `pd.DataFrame(dicts)`
    | Projected(columns: seq<string>, rows: seq<Record>)  // `df[columns]`

  /** A frame's cell: a column the row lacks holds `NaN`. */
  function Cell(row: Record, column: string): Value {
    if column in row then row[column] else NaN
  }

  /** The columns of a frame built from dicts: every key of every row. */
  function ColumnsOf(rows: seq<Record>): set<string> {
    set i, k | 0 <= i < |rows| && k in rows[i] :: k
  }

  /** `df[col] = np.nan`: a new column holding `NaN` in every row. */
  function AddNaNColumn(rows: seq<Record>, column: string): (r: seq<Record>)
    ensures |r| == |rows|
  {
    seq(|rows|, i requires 0 <= i < |rows| => rows[i][column := NaN])
  }

  /** The row restricted to `columns`, each missing cell `NaN`. */
  function Project(row: Record, columns: seq<string>): (r: Record)
    ensures forall c :: c in r <==> c in columns
  {
    map c | c in columns :: Cell(row, c)
  }

  /**
   * The frame the service hands to the preprocessor: with non-empty feature names, exactly those columns
   * in that order, each row's missing features `NaN`; without them, the dicts as they are.
   */
  function Aligned(features: Option<seq<string>>, rows: seq<Record>): Frame {
    if features.Some? && features.value != [] then
      Projected(features.value, seq(|rows|, i requires 0 <= i < |rows| => Project(rows[i], features.value)))
    else Raw(rows)
  }

  /**
   * With feature names set, the aligned frame has exactly those columns in that order, one row per dict,
   * each cell the dict's value or `NaN` where the dict lacks the feature.
   */
  lemma AlignedShape(fs: seq<string>, rows: seq<Record>)
    requires fs != []
    ensures var df := Aligned(Some(fs), rows);
      && df.Projected? && df.columns == fs && |df.rows| == |rows|
      && forall i :: 0 <= i < |rows| ==>
           df.rows[i].Keys == set c | c in fs && forall c :: c in fs ==>
             df.rows[i][c] == (if c in rows[i] then rows[i][c] else NaN)
  {
  }

  /** Aligning an aligned frame's rows again changes nothing. */
  lemma AlignedIdempotent(features: Option<seq<string>>, rows: seq<Record>)
    ensures Aligned(features, Aligned(features, rows).rows) == Aligned(features, rows)
  {
    if features.Some? && features.value != [] {
      var fs := features.value;
      var once := Aligned(features, rows).rows;
      forall i | 0 <= i < |rows| ensures Project(once[i], fs) == once[i] {
        assert forall c :: c in fs ==> Cell(once[i], c) == once[i][c];
      }
    }
  }

  /** A fitted transform's output: one vector per row. */
  type Matrix = seq<seq<real>>

  /** What the classifier reports for the first row: the label, the class probabilities and `classes_`. */
  datatype Prediction = Prediction(outcome: int, probability: seq<real>, classes: seq<int>)

  /** The learning library, as the service calls it; `Err` carries the text of the exception raised. */
  datatype Ml = Ml(
    transform: (Component, Frame) -> Result<Matrix, string>,
    predict: (Component, Matrix) -> Result<Prediction, string>,
    similarity: (Matrix, Matrix) -> Result<seq<real>, string>)

  /** The `ValueError`s the service raises. */
  datatype ServiceError =
    | NotLoaded(what: string)           // "Preprocessor not loaded", "Model not loaded"
    | PreprocessingFailed(cause: string)
    | PredictionFailed(cause: string)

  /** The error's message. */
  function Message(e: ServiceError): string {
    match e
    case NotLoaded(what) => what
    case PreprocessingFailed(cause) => "Error preprocessing data: " + cause
    case PredictionFailed(cause) => "Error making prediction: " + cause
  }

  /** The text of the `IndexError` numpy raises for `a[index]` on an array of `size` elements. */
  function IndexErrorText(index: nat, size: nat): string {
    "index " + Text.ShowNat(index) + " is out of bounds for axis 0 with size " + Text.ShowNat(size)
  }

  /**
   * The probability of the pathogenic class: `probability[1]` when there are at least two classes and the
   * second class is 1, else `probability[0]`; reading past the end of either array raises.
   */
  function PathogenProbability(probability: seq<real>, classes: seq<int>): (r: Result<real, string>)
    ensures |probability| > 1 && |classes| > 1 && classes[1] == 1 ==> r == Ok(probability[1])
    ensures |probability| > 1 && |classes| > 1 && classes[1] != 1 ==> r == Ok(probability[0])
    ensures |probability| == 1 ==> r == Ok(probability[0])
    ensures r.Err? <==> probability == [] || (|probability| > 1 && |classes| <= 1)
  {
    if |probability| > 1 then
      if |classes| <= 1 then Err(IndexErrorText(1, |classes|))
      else if classes[1] == 1 then Ok(probability[1]) else Ok(probability[0])
    else if probability == [] then Err(IndexErrorText(0, 0))
    else Ok(probability[0])
  }

  /** For a binary classifier with classes [0, 1], the reported probability is that of class 1. */
  lemma BinaryClassifierReportsClassOne(p0: real, p1: real)
    ensures PathogenProbability([p0, p1], [0, 1]) == Ok(p1)
    ensures PathogenProbability([p1, p0], [1, 0]) == Ok(p1)
  {
  }

  /** The key `sorted` orders the copies by: their `similarity_score`, a number in every copy. */
  function Score(x: Record): real {
    match Get(x, "similarity_score")
    case Num(v) => v
    case _ => 0.0
  }

  /** The candidates, each copied with `similarity_score` set to its similarity, in input order. */
  function ScoredCopies(candidates: seq<Record>, sims: seq<real>): (r: seq<Record>)
    requires |sims| >= |candidates|
    ensures |r| == |candidates|
    ensures forall i :: 0 <= i < |r| ==> r[i] == candidates[i]["similarity_score" := Num(sims[i])]
    ensures forall i :: 0 <= i < |r| ==> Score(r[i]) == sims[i]
  {
    seq(|candidates|, i requires 0 <= i < |candidates| => candidates[i]["similarity_score" := Num(sims[i])])
  }

  /** Scores never increase from one element to the next. */
  predicate NonIncreasing(xs: seq<Record>) {
    forall i, j :: 0 <= i < j < |xs| ==> Score(xs[i]) >= Score(xs[j])
  }

  /** Insert `x` before the first element whose score is not above it, keeping equal scores in arrival order. */
  function Insert(x: Record, xs: seq<Record>): (r: seq<Record>)
    ensures multiset(r) == multiset(xs) + multiset{x}
    ensures |r| == |xs| + 1
  {
    if xs == [] || Score(x) >= Score(xs[0]) then [x] + xs
    else
      assert xs == [xs[0]] + xs[1..];
      [xs[0]] + Insert(x, xs[1..])
  }

  /** Inserting into a non-increasing sequence keeps it non-increasing. */
  lemma {:induction false} InsertKeepsOrder(x: Record, xs: seq<Record>)
    requires NonIncreasing(xs)
    ensures NonIncreasing(Insert(x, xs))
  {
    if xs != [] && Score(x) < Score(xs[0]) {
      assert NonIncreasing(xs[1..]) by {
        forall i, j | 0 <= i < j < |xs[1..]| ensures Score(xs[1..][i]) >= Score(xs[1..][j]) {
          assert xs[1..][i] == xs[i + 1] && xs[1..][j] == xs[j + 1];
        }
      }
      InsertKeepsOrder(x, xs[1..]);
      var rest := Insert(x, xs[1..]);
      forall k | 0 <= k < |rest| ensures Score(xs[0]) >= Score(rest[k]) {
        assert rest[k] in multiset(rest);
        if rest[k] in multiset(xs[1..]) {
          var m :| 0 <= m < |xs[1..]| && xs[1..][m] == rest[k];
          assert xs[1..][m] == xs[m + 1];
        }
      }
    }
  }

  /** `sorted(xs, key=lambda x: x["similarity_score"], reverse=True)`: by score, highest first. */
  function SortByScore(xs: seq<Record>): (r: seq<Record>)
    ensures multiset(r) == multiset(xs)
    ensures |r| == |xs|
  {
    if xs == [] then []
    else
      assert xs == [xs[0]] + xs[1..];
      Insert(xs[0], SortByScore(xs[1..]))
  }

  /** The sorted sequence is non-increasing by score. */
  lemma {:induction false} SortByScoreOrders(xs: seq<Record>)
    ensures NonIncreasing(SortByScore(xs))
  {
    if xs != [] {
      SortByScoreOrders(xs[1..]);
      InsertKeepsOrder(xs[0], SortByScore(xs[1..]));
    }
  }

  /** The end index of `xs[:stop]` in Python: a negative stop counts from the end, clamped at 0. */
  function SliceEnd(stop: int, length: nat): (e: nat)
    ensures e <= length
    ensures stop >= 0 ==> e == if stop < length then stop else length
    ensures stop < 0 ==> e == if length + stop > 0 then length + stop else 0
  {
    if stop >= 0 then (if stop < length then stop else length)
    else if length + stop > 0 then length + stop else 0
  }

  /** `min(a, b)`. */
  function Min(a: int, b: int): int {
    if a < b then a else b
  }

  /** The ranked copies `find_similar_bacteria` returns once every step has succeeded. */
  function Ranked(candidates: seq<Record>, sims: seq<real>, n: int): seq<Record>
    requires |sims| >= |candidates|
  {
    var sorted := SortByScore(ScoredCopies(candidates, sims));
    sorted[..SliceEnd(Min(n, |sorted|), |sorted|)]
  }

  /**
   * The ranking: for a non-negative `n`, `min(n, #candidates)` results; they are scored copies of the
   * candidates, each copy returned at most as often as it occurs; their scores are non-increasing; and
   * every copy left out scores no higher than any copy returned.
   */
  lemma RankedIsTopN(candidates: seq<Record>, sims: seq<real>, n: int)
    requires |sims| >= |candidates|
    ensures var r := Ranked(candidates, sims, n);
      && (n >= 0 ==> |r| == Min(n, |candidates|))
      && multiset(r) <= multiset(ScoredCopies(candidates, sims))
      && NonIncreasing(r)
    ensures var r := Ranked(candidates, sims, n);
      forall k :: 0 <= k < |r| ==>
        exists i :: 0 <= i < |candidates| && r[k] == candidates[i]["similarity_score" := Num(sims[i])]
    ensures var r := Ranked(candidates, sims, n);
      exists rest: seq<Record> ::
        && multiset(r) + multiset(rest) == multiset(ScoredCopies(candidates, sims))
        && forall x, k :: x in rest && 0 <= k < |r| ==> Score(x) <= Score(r[k])
  {
    var scored := ScoredCopies(candidates, sims);
    var sorted := SortByScore(scored);
    SortByScoreOrders(scored);
    var e := SliceEnd(Min(n, |sorted|), |sorted|);
    assert Ranked(candidates, sims, n) == sorted[..e];
    TopOfSorted(scored, sorted, e);
    CopiesOfCandidates(candidates, sims, sorted[..e]);
  }

  /**
   * The first `e` elements of a non-increasing arrangement of `all` are drawn from `all`, keep the order,
   * and score no lower than anything of `all` left out.
   */
  lemma TopOfSorted(all: seq<Record>, sorted: seq<Record>, e: nat)
    requires NonIncreasing(sorted) && multiset(sorted) == multiset(all) && e <= |sorted|
    ensures multiset(sorted[..e]) <= multiset(all)
    ensures NonIncreasing(sorted[..e])
    ensures exists rest: seq<Record> ::
      && multiset(sorted[..e]) + multiset(rest) == multiset(all)
      && forall x, k :: x in rest && 0 <= k < |sorted[..e]| ==> Score(x) <= Score(sorted[..e][k])
  {
    PrefixIsTop(sorted, e);
    var rest := sorted[e..];
    assert multiset(sorted[..e]) + multiset(rest) == multiset(all);
  }

  /** Every element of a sub-multiset of the scored copies is some candidate's scored copy. */
  lemma CopiesOfCandidates(candidates: seq<Record>, sims: seq<real>, r: seq<Record>)
    requires |sims| >= |candidates|
    requires multiset(r) <= multiset(ScoredCopies(candidates, sims))
    ensures forall k :: 0 <= k < |r| ==>
      exists i :: 0 <= i < |candidates| && r[k] == candidates[i]["similarity_score" := Num(sims[i])]
  {
    var scored := ScoredCopies(candidates, sims);
    forall k | 0 <= k < |r|
      ensures exists i :: 0 <= i < |candidates| && r[k] == candidates[i]["similarity_score" := Num(sims[i])]
    {
      assert r[k] in multiset(r);
      assert r[k] in multiset(scored);
      var i :| 0 <= i < |scored| && scored[i] == r[k];
    }
  }

  /**
   * A prefix of a non-increasing sequence is non-increasing, the prefix and the remainder together hold
   * the whole sequence, and nothing in the remainder scores above anything in the prefix.
   */
  lemma PrefixIsTop(sorted: seq<Record>, e: nat)
    requires NonIncreasing(sorted) && e <= |sorted|
    ensures NonIncreasing(sorted[..e])
    ensures multiset(sorted[..e]) + multiset(sorted[e..]) == multiset(sorted)
    ensures forall x, k :: x in sorted[e..] && 0 <= k < e ==> Score(x) <= Score(sorted[..e][k])
  {
    assert sorted == sorted[..e] + sorted[e..];
    forall x, k | x in sorted[e..] && 0 <= k < e ensures Score(x) <= Score(sorted[..e][k]) {
      var b :| 0 <= b < |sorted[e..]| && sorted[e..][b] == x;
      assert x == sorted[e + b];
    }
  }

  /** The service's state. */
  class Service {
    var preprocessor: Option<Component>
    var model: Option<Component>
    var featureNames: Option<seq<string>>
    var initialized: bool

    /** `__new__` on first use: nothing loaded, not yet initialised. */
    constructor ()
      ensures preprocessor.None? && model.None? && featureNames.None? && !initialized
    {
      preprocessor, model, featureNames, initialized := None, None, None, false;
    }

    /**
     * `_load_model_and_preprocessor`, given what the model file unpickles to (`None` when the file is
     * missing or cannot be read): take the components the object yields and, when both are present and
     * the preprocessor records its feature names, take those too.
     */
    method Load(file: Option<Pipeline>)
      modifies this
      ensures (preprocessor, model) == Extract(file, old(preprocessor), old(model))
      ensures featureNames ==
        if preprocessor.Some? && model.Some? && preprocessor.value.features.Some? then preprocessor.value.features
        else old(featureNames)
      ensures initialized == old(initialized)
    {
      match file {
        case None =>
        case Some(Steps(named, steps)) =>
          preprocessor := Lookup(named, "preprocessor");
          model := Lookup(named, "classifier");
          if preprocessor.None? && steps.Some? {
            var d := StepsDict(steps.value);
            preprocessor := Lookup(d, "preprocessor");
            model := Lookup(d, "classifier");
          }
        case Some(Pair(first, second)) =>
          preprocessor, model := first, second;
        case Some(Other) =>
      }
      if model.Some? && preprocessor.Some? {
        if preprocessor.value.features.Some? {
          featureNames := preprocessor.value.features;
        }
      }
    }

    /** `__init__`: load only while not yet initialised, then mark the service initialised. */
    method Init(file: Option<Pipeline>)
      modifies this
      ensures initialized
      ensures old(initialized) ==>
        preprocessor == old(preprocessor) && model == old(model) && featureNames == old(featureNames)
      ensures !old(initialized) ==>
        && (preprocessor, model) == Extract(file, old(preprocessor), old(model))
        && featureNames ==
             if preprocessor.Some? && model.Some? && preprocessor.value.features.Some? then preprocessor.value.features
             else old(featureNames)
    {
      if !initialized {
        Load(file);
        initialized := true;
      }
    }

    /**
     * The column alignment of `_prepare_input_data` and `find_similar_bacteria`: add each missing feature
     * as a `NaN` column, then keep exactly the features, in their order.
     */
    method AlignColumns(rows: seq<Record>) returns (df: Frame)
      ensures df == Aligned(featureNames, rows)
    {
      if featureNames.Some? && featureNames.value != [] {
        var fs := featureNames.value;
        var filled := rows;
        for i := 0 to |fs|
          invariant |filled| == |rows|
          invariant forall r :: 0 <= r < |rows| ==> forall c :: c in fs ==> Cell(filled[r], c) == Cell(rows[r], c)
        {
          if fs[i] !in ColumnsOf(filled) {
            filled := AddNaNColumn(filled, fs[i]);
          }
        }
        df := Projected(fs, seq(|filled|, r requires 0 <= r < |filled| => Project(filled[r], fs)));
        assert forall r :: 0 <= r < |rows| ==> Project(filled[r], fs) == Project(rows[r], fs);
      } else {
        df := Raw(rows);
      }
    }

    /** `_prepare_input_data`: the one-row frame of the input dict, aligned. */
    method PrepareInputData(data: Record) returns (df: Frame)
      ensures df == Aligned(featureNames, [data])
    {
      df := AlignColumns([data]);
    }

    /** `preprocess_data`: fails when no preprocessor is loaded, else transforms the prepared row. */
    method PreprocessData(data: Record, ml: Ml) returns (r: Result<Matrix, ServiceError>)
      ensures preprocessor.None? ==> r == Err(NotLoaded("Preprocessor not loaded"))
      ensures preprocessor.Some? ==>
        r == match ml.transform(preprocessor.value, Aligned(featureNames, [data]))
             case Ok(x) => Ok(x)
             case Err(e) => Err(PreprocessingFailed(e))
    {
      if preprocessor.None? {
        return Err(NotLoaded("Preprocessor not loaded"));
      }
      var df := PrepareInputData(data);
      var x := ml.transform(preprocessor.value, df);
      match x {
        case Ok(m) => r := Ok(m);
        case Err(e) => r := Err(PreprocessingFailed(e));
      }
    }

    /**
     * `predict_pathogenicity`: fails when no model is loaded, passes on a preprocessing failure, and
     * otherwise returns the label and the pathogenic probability, any failure of the classifier or of
     * reading its output reported as a prediction error.
     */
    method PredictPathogenicity(data: Record, ml: Ml) returns (r: Result<(int, real), ServiceError>)
      ensures model.None? ==> r == Err(NotLoaded("Model not loaded"))
      ensures model.Some? && preprocessor.None? ==> r == Err(NotLoaded("Preprocessor not loaded"))
      ensures r.Ok? ==> model.Some? && preprocessor.Some?
      ensures model.Some? && preprocessor.Some? ==>
        match ml.transform(preprocessor.value, Aligned(featureNames, [data]))
        case Err(e) => r == Err(PreprocessingFailed(e))
        case Ok(x) =>
          match ml.predict(model.value, x)
          case Err(e) => r == Err(PredictionFailed(e))
          case Ok(p) =>
            match PathogenProbability(p.probability, p.classes)
            case Err(e) => r == Err(PredictionFailed(e))
            case Ok(prob) => r == Ok((p.outcome, prob))
    {
      if model.None? {
        return Err(NotLoaded("Model not loaded"));
      }
      var x := PreprocessData(data, ml);
      if x.Err? {
        return Err(x.error);
      }
      var p := ml.predict(model.value, x.value);
      if p.Err? {
        return Err(PredictionFailed(p.error));
      }
      var prob := PathogenProbability(p.value.probability, p.value.classes);
      if prob.Err? {
        return Err(PredictionFailed(prob.error));
      }
      r := Ok((p.value.outcome, prob.value));
    }

    /**
     * `find_similar_bacteria`: `[]` when no preprocessor is loaded, when there are no candidates, or when
     * any step fails (including fewer similarities than candidates); otherwise the candidates' copies with
     * their `similarity_score`, highest first, cut to `min(n, #candidates)`.
     */
    method FindSimilarBacteria(input: Record, candidates: seq<Record>, n: int, ml: Ml) returns (r: seq<Record>)
      ensures preprocessor.None? || candidates == [] ==> r == []
      ensures r != [] ==> exists sims :: |sims| >= |candidates| && r == Ranked(candidates, sims, n)
      ensures preprocessor.Some? && candidates != [] ==>
        r == match ml.transform(preprocessor.value, Aligned(featureNames, [input]))
             case Err(_) => []
             case Ok(x) =>
               match ml.transform(preprocessor.value, Aligned(featureNames, candidates))
               case Err(_) => []
               case Ok(all) =>
                 match ml.similarity(x, all)
                 case Err(_) => []
                 case Ok(sims) => if |sims| < |candidates| then [] else Ranked(candidates, sims, n)
    {
      if preprocessor.None? || candidates == [] {
        return [];
      }
      var x := PreprocessData(input, ml);
      if x.Err? {
        return [];
      }
      var frame := AlignColumns(candidates);
      var all := ml.transform(preprocessor.value, frame);
      if all.Err? {
        return [];
      }
      var sims := ml.similarity(x.value, all.value);
      if sims.Err? || |sims.value| < |candidates| {
        return [];
      }
      var scored: seq<Record> := [];
      for i := 0 to |candidates|
        invariant scored == ScoredCopies(candidates[..i], sims.value)
      {
        var copy := candidates[i]["similarity_score" := Num(sims.value[i])];
        scored := scored + [copy];
      }
      assert candidates[..|candidates|] == candidates;
      var sorted := SortByScore(scored);
      r := sorted[..SliceEnd(Min(n, |sorted|), |sorted|)];
    }
  }

  /** The module-level registry behind `BacteriaModelServiceSingleton()`. */
  class Registry {
    var instance: Service?

    /** No instance exists before the first construction. */
    constructor ()
      ensures instance == null
    {
      instance := null;
    }

    /**
     * `BacteriaModelServiceSingleton()`: `__new__` creates the instance on first use and returns the same
     * one afterwards, then `__init__` runs on it, loading only the first time.
     */
    method Construct(file: Option<Pipeline>) returns (s: Service)
      modifies this, instance
      ensures instance == s && s.initialized
      ensures old(instance) != null ==> s == old(instance)
      ensures old(instance) != null && old(instance.initialized) ==>
        s.preprocessor == old(instance.preprocessor) && s.model == old(instance.model) &&
        s.featureNames == old(instance.featureNames)
      ensures old(instance) == null ==> fresh(s) && (s.preprocessor, s.model) == Extract(file, None, None)
    {
      if instance == null {
        s := new Service();
        instance := s;
      } else {
        s := instance;
      }
      s.Init(file);
    }
  }
}
