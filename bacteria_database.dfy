/**
 * The bacteria list page: its eight pieces of state, the handlers that change the page, the page size
 * and the filters, and `loadBacteria`, which builds the request parameters from the state, calls the
 * gateway and absorbs the outcome. The page's effect re-runs `loadBacteria` after each change of page,
 * page size or filters; here the caller invokes `LoadBacteria` explicitly.
 */
module BacteriaDatabase {
  import opened Wrappers
  import opened Values
  import Api

  /** The filter form's four fields, each held as text ("" when unset). */
  datatype FilterData = FilterData(name: string, gramStain: string, isPathogen: string, phylum: string)

  /** The filter fields a select can change. */
  datatype FilterField = Name | GramStain | IsPathogen | Phylum

  const ClearedFilters: FilterData := FilterData("", "", "", "")

  /** `{ ...prev, [field]: value }`: the filters with one field replaced. */
  function WithField(f: FilterData, field: FilterField, value: string): (r: FilterData)
    ensures field == Name ==> r == f.(name := value)
    ensures field == GramStain ==> r == f.(gramStain := value)
    ensures field == IsPathogen ==> r == f.(isPathogen := value)
    ensures field == Phylum ==> r == f.(phylum := value)
  {
    match field
    case Name => f.(name := value)
    case GramStain => f.(gramStain := value)
    case IsPathogen => f.(isPathogen := value)
    case Phylum => f.(phylum := value)
  }

  /** The pathogen filter sent: "true" and "false" become booleans, anything else is left unset. */
  function PathogenParam(isPathogen: string): (v: Value)
    ensures v == Bool(true) <==> isPathogen == "true"
    ensures v == Bool(false) <==> isPathogen == "false"
    ensures v == Undefined <==> isPathogen != "true" && isPathogen != "false"
  {
    if isPathogen == "true" then Bool(true) else if isPathogen == "false" then Bool(false) else Undefined
  }

  /** `text || undefined`. */
  function TextParam(text: string): Value {
    if text != "" then Str(text) else Undefined
  }

  /**
   * The `PaginationParams` object `loadBacteria` builds, as its entries: the page and page size, the name
   * as the search text, the pathogen filter, the gram stain and the phylum, each unset when empty.
   */
  function BuildParams(currentPage: int, pageSize: int, f: FilterData): seq<(string, Value)> {
    [("page", Num(currentPage as real)), ("page_size", Num(pageSize as real)), ("search", TextParam(f.name)),
     ("is_pathogen", PathogenParam(f.isPathogen)), ("gram_stain", TextParam(f.gramStain)),
     ("phylum", TextParam(f.phylum))]
  }

  /** The keys of `PaginationParams`. */
  const ParamNames: set<string> := {"page", "page_size", "search", "is_pathogen", "gram_stain", "phylum"}

  /** Each entry of the parameters is sent exactly when it is set, with its own value. */
  lemma ParamSent(currentPage: int, pageSize: int, f: FilterData, i: nat)
    requires i < 6
    ensures var entries := BuildParams(currentPage, pageSize, f);
      var q := Api.CleanedParams(entries);
      && (entries[i].0 in q <==> Api.Kept(entries[i].1))
      && (Api.Kept(entries[i].1) ==> q[entries[i].0] == entries[i].1)
  {
    var entries := BuildParams(currentPage, pageSize, f);
    assert Api.DistinctKeys(entries);
    Api.CleanedParamsExact(entries);
  }

  /** No other parameter is sent. */
  lemma OnlyParamNamesSent(currentPage: int, pageSize: int, f: FilterData)
    ensures Api.CleanedParams(BuildParams(currentPage, pageSize, f)).Keys <= ParamNames
  {
    var entries := BuildParams(currentPage, pageSize, f);
    assert Api.DistinctKeys(entries);
    Api.CleanedParamsExact(entries);
    var q := Api.CleanedParams(entries);
    forall k | k in q ensures k in ParamNames {
      var i :| 0 <= i < |entries| && entries[i].0 == k;
    }
  }

  /**
   * The query the list request carries: page and page size always, and each filter exactly when it is
   * set, with the name sent as `search` and the pathogen filter as a boolean.
   */
  lemma ParamsSent(currentPage: int, pageSize: int, f: FilterData)
    ensures var q := Api.CleanedParams(BuildParams(currentPage, pageSize, f));
      && q.Keys <= ParamNames
      && "page" in q && q["page"] == Num(currentPage as real)
      && "page_size" in q && q["page_size"] == Num(pageSize as real)
      && ("search" in q <==> f.name != "") && (f.name != "" ==> q["search"] == Str(f.name))
      && ("is_pathogen" in q <==> f.isPathogen == "true" || f.isPathogen == "false")
      && ("is_pathogen" in q ==> q["is_pathogen"] == Bool(f.isPathogen == "true"))
      && ("gram_stain" in q <==> f.gramStain != "") && (f.gramStain != "" ==> q["gram_stain"] == Str(f.gramStain))
      && ("phylum" in q <==> f.phylum != "") && (f.phylum != "" ==> q["phylum"] == Str(f.phylum))
  {
    OnlyParamNamesSent(currentPage, pageSize, f);
    ParamSent(currentPage, pageSize, f, 0);
    ParamSent(currentPage, pageSize, f, 1);
    ParamSent(currentPage, pageSize, f, 2);
    ParamSent(currentPage, pageSize, f, 3);
    ParamSent(currentPage, pageSize, f, 4);
    ParamSent(currentPage, pageSize, f, 5);
  }

  /** What a load ends with: the rows and totals of a good response, or an error message. */
  datatype LoadOutcome = Loaded(rows: Value, totalItems: Value, totalPages: Value) | Failed(message: Value)

  /** `x || fallback`. */
  function Or(x: Value, fallback: Value): Value {
    if JsTruthy(x) then x else fallback
  }

  /**
   * What `loadBacteria` makes of the gateway's outcome: a body with truthy `success` and `data` loads its
   * rows with `meta.total_items || 0` and `meta.total_pages || 1`; any other body fails with its message
   * or "Failed to load bacteria data"; a thrown error fails with its message, or "An unknown error
   * occurred" when it is not an `Error`.
   */
  function Absorb(outcome: Result<Value, Api.Thrown>, engine: Api.Engine): (r: LoadOutcome)
    ensures r.Loaded? ==> outcome.Ok? && JsTruthy(r.rows) && (JsTruthy(r.totalItems) || r.totalItems == Num(0.0))
    ensures r.Loaded? ==> JsTruthy(r.totalPages)
    ensures r.Failed? ==> r.message != Null && r.message != Undefined
    ensures outcome.Err? ==> r == Failed(Str(Api.ErrorMessage(outcome.error).GetOr("An unknown error occurred")))
    ensures outcome.Ok? && Api.Prop(outcome.value, "success").None? ==> r == Failed(Str(engine.typeErrorText("success")))
    ensures outcome.Ok? && Api.Prop(outcome.value, "success").Some? ==>
      (r.Loaded? <==> JsTruthy(Api.OptProp(outcome.value, "success")) && JsTruthy(Api.OptProp(outcome.value, "data")))
    ensures r.Loaded? ==>
      var meta := Api.OptProp(outcome.value, "meta");
      && r.rows == Api.OptProp(outcome.value, "data")
      && r.totalItems == Or(Api.OptProp(meta, "total_items"), Num(0.0))
      && r.totalPages == Or(Api.OptProp(meta, "total_pages"), Num(1.0))
    ensures outcome.Ok? && Api.Prop(outcome.value, "success").Some? && r.Failed? ==>
      r.message == Or(Api.OptProp(outcome.value, "message"), Str("Failed to load bacteria data"))
  {
    match outcome
    case Err(t) =>
      (match Api.ErrorMessage(t)
       case None => Failed(Str("An unknown error occurred"))
       case Some(m) => Failed(Str(m)))
    case Ok(body) =>
      match Api.Prop(body, "success")
      case None => Failed(Str(engine.typeErrorText("success")))
      case Some(success) =>
        var data := Api.OptProp(body, "data");
        if JsTruthy(success) && JsTruthy(data) then
          var meta := Api.OptProp(body, "meta");
          Loaded(data, Or(Api.OptProp(meta, "total_items"), Num(0.0)), Or(Api.OptProp(meta, "total_pages"), Num(1.0)))
        else Failed(Or(Api.OptProp(body, "message"), Str("Failed to load bacteria data")))
  }

  /** A server that reports zero pages (no matching rows) still leaves the page at one page in total. */
  lemma ZeroPagesBecomeOne(body: map<string, Value>, meta: map<string, Value>, engine: Api.Engine)
    requires JsTruthy(Get(body, "success")) && JsTruthy(Get(body, "data"))
    requires Get(body, "meta") == Obj(meta) && Get(meta, "total_pages") == Num(0.0)
    ensures Absorb(Ok(Obj(body)), engine).Loaded? && Absorb(Ok(Obj(body)), engine).totalPages == Num(1.0)
  {
  }

  /** The list page's state and its handlers. */
  class ListView {
    var currentPage: int
    var pageSize: int
    var isLoading: bool
    var bacteria: Value
    var totalItems: Value
    var totalPages: Value
    var filterData: FilterData
    var error: Value

    /** The state on first render: page 1 of 10 rows, no filters, nothing loaded yet, loading. */
    constructor ()
      ensures currentPage == 1 && pageSize == 10 && filterData == ClearedFilters
      ensures bacteria == Arr([]) && totalItems == Num(0.0) && totalPages == Num(1.0)
      ensures isLoading && error == Null
    {
      currentPage, pageSize, isLoading := 1, 10, true;
      bacteria, totalItems, totalPages := Arr([]), Num(0.0), Num(1.0);
      filterData, error := ClearedFilters, Null;
    }

    /** `onSubmitFilter`: take the submitted filters as they are and go back to page 1. */
    method OnSubmitFilter(data: FilterData)
      modifies this
      ensures filterData == data && currentPage == 1
      ensures pageSize == old(pageSize) && isLoading == old(isLoading) && error == old(error)
      ensures bacteria == old(bacteria) && totalItems == old(totalItems) && totalPages == old(totalPages)
    {
      filterData := data;
      currentPage := 1;
    }

    /** `clearFilters`: empty all four filters and go back to page 1. */
    method ClearFilters()
      modifies this
      ensures filterData == ClearedFilters && currentPage == 1
      ensures pageSize == old(pageSize) && isLoading == old(isLoading) && error == old(error)
      ensures bacteria == old(bacteria) && totalItems == old(totalItems) && totalPages == old(totalPages)
    {
      filterData := ClearedFilters;
      currentPage := 1;
    }

    /** `handleSelectChange`: replace one filter field; the page stays where it is. */
    method HandleSelectChange(field: FilterField, value: string)
      modifies this
      ensures filterData == WithField(old(filterData), field, value)
      ensures currentPage == old(currentPage) && pageSize == old(pageSize)
      ensures isLoading == old(isLoading) && error == old(error)
      ensures bacteria == old(bacteria) && totalItems == old(totalItems) && totalPages == old(totalPages)
    {
      filterData := WithField(filterData, field, value);
    }

    /** `handlePageChange`: go to the given page; nothing else changes. */
    method HandlePageChange(page: int)
      modifies this
      ensures currentPage == page
      ensures pageSize == old(pageSize) && filterData == old(filterData)
      ensures isLoading == old(isLoading) && error == old(error)
      ensures bacteria == old(bacteria) && totalItems == old(totalItems) && totalPages == old(totalPages)
    {
      currentPage := page;
    }

    /** `handlePageSizeChange`: take the new page size and go back to page 1. */
    method HandlePageSizeChange(size: int)
      modifies this
      ensures pageSize == size && currentPage == 1
      ensures filterData == old(filterData) && isLoading == old(isLoading) && error == old(error)
      ensures bacteria == old(bacteria) && totalItems == old(totalItems) && totalPages == old(totalPages)
    {
      pageSize := size;
      currentPage := 1;
    }

    /**
     * `loadBacteria`: mark the page loading and clear the error, request the page the state describes
     * through `transport`, then either take the rows and totals of a good response or keep the rows and
     * totals already shown and record the error; loading ends whatever the outcome.
     */
    method LoadBacteria(transport: Record -> Result<Api.HttpResponse, Api.Thrown>, engine: Api.Engine)
      returns (sent: Record)
      modifies this
      ensures sent == Api.CleanedParams(BuildParams(old(currentPage), old(pageSize), old(filterData)))
      ensures !isLoading
      ensures currentPage == old(currentPage) && pageSize == old(pageSize) && filterData == old(filterData)
      ensures match Absorb(Api.ListOutcome(transport(sent)), engine)
        case Loaded(rows, items, pages) => bacteria == rows && totalItems == items && totalPages == pages && error == Null
        case Failed(message) =>
          && error == message
          && bacteria == old(bacteria) && totalItems == old(totalItems) && totalPages == old(totalPages)
    {
      isLoading := true;
      error := Null;
      var outcome;
      sent, outcome := Api.GetBacteriaList(BuildParams(currentPage, pageSize, filterData), transport);
      match Absorb(outcome, engine) {
        case Loaded(rows, items, pages) =>
          bacteria, totalItems, totalPages := rows, items, pages;
        case Failed(message) =>
          error := message;
      }
      isLoading := false;
    }
  }
}
