/**
 * The MiMeDB scraper: collecting microbe ids from the listing pages, turning a detail page into column
 * values, and saving them as an insert or an update of the `bacteria` table. Fetched pages arrive already
 * fetched and parsed: a listing page as the `href`s of its microbe links, a detail page as its title,
 * the header and data cell texts of its two tables, and its disease cell.
 */
module MimeDb {
  import opened Wrappers
  import opened Values
  import opened Text
  import opened BacteriaStore

  /** The path segment before a microbe id in a link. */
  const MicrobesSegment: string := "/microbes/"

  /** Every MiMeDB microbe id starts with this. */
  const IdPrefix: string := "MMDBm"

  /** The `href` attributes of the microbe links of one listing page; a link may lack one. */
  type Links = seq<Option<string>>

  /**
   * The id a link contributes: the text after its last `/microbes/`, when the link has a non-empty
   * `href` holding that segment and the text starts with `MMDBm`.
   */
  function IdFromHref(href: Option<string>): (id: Option<string>)
    ensures id.Some? ==> href.Some? && StartsWith(id.value, IdPrefix) && EndsWith(href.value, id.value)
  {
    match href
    case None => None
    case Some(h) =>
      if h == "" || !Contains(h, MicrobesSegment) then None
      else
        LastPieceIsSuffix(h, MicrobesSegment);
        var tail := LastPiece(h, MicrobesSegment);
        if StartsWith(tail, IdPrefix) then Some(tail) else None
  }

  /**
   * The id a link contributes directly follows a `/microbes/` of the link and holds none itself, so
   * it is the text after the last one.
   */
  lemma IdFollowsLastSegment(href: Option<string>)
    requires IdFromHref(href).Some?
    ensures var id := IdFromHref(href).value;
      FollowsSeparator(href.value, id, MicrobesSegment) && !Contains(id, MicrobesSegment)
  {
    LastPieceFollowsSeparator(href.value, MicrobesSegment);
    LastPieceHasNoSeparator(href.value, MicrobesSegment);
  }

  /** A link `base + "/microbes/" + id` with an `MMDBm` id gives that id when `base` leads into no earlier segment. */
  lemma IdFromLink(base: string, id: string)
    requires StartsWith(id, IdPrefix) && !Contains(id, MicrobesSegment)
    requires !Contains(base + "/microbes", MicrobesSegment)
    ensures IdFromHref(Some(base + MicrobesSegment + id)) == Some(id)
  {
    var h := base + MicrobesSegment + id;
    var k := |base|;
    assert OccursAt(h, MicrobesSegment, k) by { assert h[k..k + |MicrobesSegment|] == MicrobesSegment; }
    forall j | 0 <= j < k ensures !OccursAt(h, MicrobesSegment, j) {
      NoSegmentInBase(base, id, j);
    }
    var found := FindFrom(h, MicrobesSegment, 0);
    assert found == Some(k);
    assert h[k + |MicrobesSegment|..] == id;
    LastPieceWithoutSeparator(id, MicrobesSegment);
  }

  /** Where `base + "/microbes"` holds no segment, none of the link starts inside `base`. */
  lemma NoSegmentInBase(base: string, id: string, j: nat)
    requires !Contains(base + "/microbes", MicrobesSegment) && j < |base|
    ensures !OccursAt(base + MicrobesSegment + id, MicrobesSegment, j)
  {
    var h, prefix := base + MicrobesSegment + id, base + "/microbes";
    assert j + |MicrobesSegment| <= |prefix|;
    assert h[j..j + |MicrobesSegment|] == prefix[j..j + |MicrobesSegment|];
    assert !OccursAt(prefix, MicrobesSegment, j);
  }

  /** The ids the links of one page contribute, in link order. */
  function PageIds(links: Links): (ids: seq<string>)
    ensures |ids| <= |links|
    ensures forall k :: 0 <= k < |ids| ==> StartsWith(ids[k], IdPrefix)
  {
    if links == [] then []
    else
      var ids := PageIds(links[..|links| - 1]);
      match IdFromHref(links[|links| - 1])
      case None => ids
      case Some(id) => ids + [id]
  }

  /**
   * The ids collected from page `pageNum` up to page `maxPages`, in page order: a page whose fetch failed
   * (`None`) is skipped, and collection stops at a page after the first that yields no ids.
   */
  function Collect(fetch: nat -> Option<Links>, pageNum: nat, maxPages: int): (ids: seq<string>)
    requires pageNum >= 1
    decreases maxPages + 1 - pageNum
  {
    if pageNum > maxPages then []
    else
      match fetch(pageNum)
      case None => Collect(fetch, pageNum + 1, maxPages)
      case Some(links) =>
        var found := PageIds(links);
        if found == [] && pageNum > 1 then [] else found + Collect(fetch, pageNum + 1, maxPages)
  }

  /** Every collected id is an `MMDBm` id. */
  lemma {:induction false} CollectedIdsArePrefixed(fetch: nat -> Option<Links>, pageNum: nat, maxPages: int)
    requires pageNum >= 1
    ensures forall x :: x in Collect(fetch, pageNum, maxPages) ==> StartsWith(x, IdPrefix)
    decreases maxPages + 1 - pageNum
  {
    if pageNum <= maxPages {
      CollectedIdsArePrefixed(fetch, pageNum + 1, maxPages);
      match fetch(pageNum)
      case None =>
      case Some(links) =>
        var found := PageIds(links);
        forall x | x in found ensures StartsWith(x, IdPrefix) {
          var k :| 0 <= k < |found| && found[k] == x;
        }
    }
  }

  /**
   * A fetched page after the first that yields no ids ends the collection: no page after it is read,
   * so the ids are those of the pages before it.
   */
  lemma {:induction false} CollectStopsAtEmptyPage(fetch: nat -> Option<Links>, pageNum: nat, stop: nat, maxPages: int)
    requires 1 <= pageNum <= stop <= maxPages && stop > 1
    requires fetch(stop).Some? && PageIds(fetch(stop).value) == []
    ensures Collect(fetch, pageNum, maxPages) == Collect(fetch, pageNum, stop - 1)
    decreases stop - pageNum
  {
    if pageNum < stop {
      CollectStopsAtEmptyPage(fetch, pageNum + 1, stop, maxPages);
    }
  }

  /**
   * `get_bacteria_ids`: read pages 1 to `maxPages` through `fetch`, collect the ids of their links,
   * stop after the first page past page 1 that yields none, and return the distinct ids, in no
   * particular order (the source returns `list(set(ids))`).
   */
  method GetBacteriaIds(fetch: nat -> Option<Links>, maxPages: int) returns (ids: seq<string>)
    ensures forall x :: x in ids <==> x in Collect(fetch, 1, maxPages)
    ensures forall i, j :: 0 <= i < j < |ids| ==> ids[i] != ids[j]
  {
    var collected: seq<string> := [];
    var pageNum: nat := 1;
    while pageNum <= maxPages
      invariant pageNum >= 1
      invariant collected + Collect(fetch, pageNum, maxPages) == Collect(fetch, 1, maxPages)
      decreases maxPages + 1 - pageNum
    {
      var page := fetch(pageNum);
      if page.None? {
        pageNum := pageNum + 1;
        continue;
      }
      var pageIdsFound;
      collected, pageIdsFound := CollectPage(page.value, collected);
      if pageIdsFound == 0 && pageNum > 1 {
        break;
      }
      pageNum := pageNum + 1;
    }
    ids := Distinct(collected);
  }

  /** The inner loop of `get_bacteria_ids`: append the ids of one page's links, counting them. */
  method CollectPage(links: Links, collected: seq<string>) returns (collected': seq<string>, found: nat)
    ensures collected' == collected + PageIds(links) && found == |PageIds(links)|
  {
    collected', found := collected, 0;
    for n := 0 to |links|
      invariant collected' == collected + PageIds(links[..n])
      invariant found == |PageIds(links[..n])|
    {
      assert links[..n + 1][..n] == links[..n];
      var id := IdFromHref(links[n]);
      if id.Some? {
        collected' := collected' + [id.value];
        found := found + 1;
      }
    }
    assert links[..|links|] == links;
  }

  /** `list(set(xs))`: each element once, in an order the set chooses. */
  method Distinct(xs: seq<string>) returns (ids: seq<string>)
    ensures forall x :: x in ids <==> x in xs
    ensures forall i, j :: 0 <= i < j < |ids| ==> ids[i] != ids[j]
  {
    var remaining := set x | x in xs;
    ids := [];
    while remaining != {}
      invariant forall x :: x in xs <==> x in ids || x in remaining
      invariant forall x :: x in ids ==> x !in remaining
      invariant forall i, j :: 0 <= i < j < |ids| ==> ids[i] != ids[j]
      decreases remaining
    {
      var x :| x in remaining;
      ids := ids + [x];
      remaining := remaining - {x};
    }
  }

  /** One table row of a detail page: the texts of its header and data cells, when it has them. */
  datatype Cells = Cells(th: Option<string>, td: Option<string>)

  /**
   * A fetched detail page: the page title, the rows of the taxonomy table and of the properties table,
   * and the disease cell.
   */
  datatype DetailPage = DetailPage(title: Option<string>, taxRows: seq<Cells>, propRows: seq<Cells>,
                                   disease: Option<string>)

  /** Taxonomy table headers and the columns they fill. */
  const TaxMap: map<string, string> := map[
    "Superkingdom" := "superkingdom", "Kingdom" := "kingdom", "Phylum" := "phylum", "Class" := "class_name",
    "Order" := "order", "Family" := "family", "Genus" := "genus", "Species" := "species", "Strain" := "strain"]

  /** Properties table headers and the columns they fill. */
  const PropMap: map<string, string> := map[
    "Gram staining properties" := "gram_stain", "Shape" := "shape", "Mobility" := "mobility",
    "Flagellar presence" := "flagellar_presence", "Number of membranes" := "number_of_membranes",
    "Oxygen preference" := "oxygen_preference", "Optimal temperature" := "optimal_temperature",
    "Temperature range" := "temperature_range", "Habitat" := "habitat",
    "Biotic relationship" := "biotic_relationship", "Cell arrangement" := "cell_arrangement",
    "Sporulation" := "sporulation", "Metabolism" := "metabolism", "Energy source" := "energy_source"]

  /** The properties read as yes/no. */
  const YesNoColumns: set<string> := {"mobility", "flagellar_presence", "sporulation"}

  /** The marker MiMeDB prints in a cell without a value. */
  const NotAvailable: string := "Not Available"

  /** The column and value a taxonomy row gives: its stripped cell text, or `None` for a "Not Available" cell. */
  function TaxEntry(row: Cells): (e: Option<(string, Value)>)
    ensures e.Some? ==> row.th.Some? && row.td.Some? && Strip(row.th.value) in TaxMap
    ensures e.Some? ==> e.value.0 == TaxMap[Strip(row.th.value)]
    ensures e.Some? ==> (e.value.1 == Null <==> Contains(row.td.value, NotAvailable))
  {
    if row.th.Some? && row.td.Some? && Strip(row.th.value) in TaxMap then
      var value := if Contains(row.td.value, NotAvailable) then Null else Str(Strip(row.td.value));
      Some((TaxMap[Strip(row.th.value)], value))
    else None
  }

  /**
   * A yes/no property: `None` for a missing or empty value, otherwise whether the value is "yes" in
   * any letter case.
   */
  function YesNo(value: Option<string>): (v: Value)
    ensures v == Null <==> !Present(value)
    ensures v == Bool(true) <==> Present(value) && Lower(value.value) == "yes"
  {
    if Present(value) then Bool(Lower(value.value) == "yes") else Null
  }

  /**
   * The column and value a properties row gives: the stripped cell text, `None` for a "Not Available"
   * cell, a yes/no reading for mobility, flagellar presence and sporulation, and the number that
   * `extractTemperature` finds in a non-empty optimal temperature.
   */
  function PropEntry(row: Cells, extractTemperature: string -> Option<real>): (e: Option<(string, Value)>)
    ensures e.Some? <==> row.th.Some? && row.td.Some? && Strip(row.th.value) in PropMap
    ensures e.Some? ==> e.value.0 == PropMap[Strip(row.th.value)]
    ensures e.Some? && Contains(Strip(row.td.value), NotAvailable) ==> e.value.1 == Null
    ensures e.Some? && e.value.0 in YesNoColumns ==>
      e.value.1 == YesNo(if Contains(Strip(row.td.value), NotAvailable) then None else Some(Strip(row.td.value)))
    ensures e.Some? && e.value.0 == "optimal_temperature" && !Contains(Strip(row.td.value), NotAvailable) ==>
      e.value.1 == if Strip(row.td.value) == "" then Str("") else OfOptionNum(extractTemperature(Strip(row.td.value)))
    ensures e.Some? && e.value.0 !in YesNoColumns && e.value.0 != "optimal_temperature" ==>
      !Contains(Strip(row.td.value), NotAvailable) ==> e.value.1 == Str(Strip(row.td.value))
  {
    if row.th.Some? && row.td.Some? && Strip(row.th.value) in PropMap then
      var field := PropMap[Strip(row.th.value)];
      var text := Strip(row.td.value);
      var value := if Contains(text, NotAvailable) then None else Some(text);
      if field in YesNoColumns then Some((field, YesNo(value)))
      else if field == "optimal_temperature" && Present(value) then
        Some((field, OfOptionNum(extractTemperature(value.value))))
      else Some((field, OfOptionStr(value)))
    else None
  }

  /** The record after the rows, in order, each writing the column its entry names (a later row wins). */
  function Fill(data: Record, rows: seq<Cells>, entry: Cells -> Option<(string, Value)>): (r: Record)
    ensures data.Keys <= r.Keys
  {
    if rows == [] then data
    else
      var before := Fill(data, rows[..|rows| - 1], entry);
      match entry(rows[|rows| - 1])
      case None => before
      case Some((k, v)) => before[k := v]
  }

  /**
   * Every column of the filled record keeps its earlier value or holds the value that one of the rows
   * gives for it.
   */
  lemma {:induction false} FillOrigin(data: Record, rows: seq<Cells>, entry: Cells -> Option<(string, Value)>)
    ensures var r := Fill(data, rows, entry);
      forall k :: k in r ==> (k in data && r[k] == data[k]) || exists i :: 0 <= i < |rows| && entry(rows[i]) == Some((k, r[k]))
  {
    if rows != [] {
      var init := rows[..|rows| - 1];
      FillOrigin(data, init, entry);
      var before := Fill(data, init, entry);
      var r := Fill(data, rows, entry);
      forall k | k in r
        ensures (k in data && r[k] == data[k]) || exists i :: 0 <= i < |rows| && entry(rows[i]) == Some((k, r[k]))
      {
        if entry(rows[|rows| - 1]).Some? && entry(rows[|rows| - 1]).value.0 == k {
          assert entry(rows[|rows| - 1]) == Some((k, r[k]));
        } else {
          assert k in before && r[k] == before[k];
          if !(k in data && before[k] == data[k]) {
            var i :| 0 <= i < |init| && entry(init[i]) == Some((k, before[k]));
            assert rows[i] == init[i];
          }
        }
      }
    }
  }

  /** The `for row in ...` loop that fills the record from a table's rows. */
  method FillFromRows(data: Record, rows: seq<Cells>, entry: Cells -> Option<(string, Value)>) returns (r: Record)
    ensures r == Fill(data, rows, entry)
  {
    r := data;
    for n := 0 to |rows|
      invariant r == Fill(data, rows[..n], entry)
    {
      assert rows[..n + 1][..n] == rows[..n];
      var e := entry(rows[n]);
      if e.Some? {
        r := r[e.value.0 := e.value.1];
      }
    }
    assert rows[..|rows|] == rows;
  }

  /**
   * The disease classification: "non-pathogenic" in the lower-cased text means not a pathogen,
   * otherwise "pathogenic" means a pathogen, and any other text means not a pathogen.
   */
  function IsPathogen(disease: string): (b: bool)
    ensures b <==> Contains(Lower(Strip(disease)), "pathogenic") && !Contains(Lower(Strip(disease)), "non-pathogenic")
  {
    var text := Lower(Strip(disease));
    if Contains(text, "non-pathogenic") then false
    else Contains(text, "pathogenic")
  }

  /** The tag that follows the name in a page title: ` (MMDBm`, then digits, then `)`. */
  const TagOpening: string := " (MMDBm"

  /** The end of the run of digits that starts at `j`. */
  function DigitRunEnd(t: string, j: nat): (e: nat)
    requires j <= |t|
    ensures j <= e <= |t| && (e == |t| || !IsDigit(t[e]))
    ensures forall k :: j <= k < e ==> IsDigit(t[k])
    decreases |t| - j
  {
    if j < |t| && IsDigit(t[j]) then DigitRunEnd(t, j + 1) else j
  }

  /** `t` holds the tag ` (MMDBm<digits>)` starting at `i`, with at least one digit. */
  predicate TagAt(t: string, i: nat) {
    OccursAt(t, TagOpening, i) &&
    var e := DigitRunEnd(t, i + |TagOpening|);
    e > i + |TagOpening| && e < |t| && t[e] == ')'
  }

  /** No line break in `t` from `i` up to `j`. */
  predicate NoLineBreak(t: string, i: nat, j: nat)
    requires i <= j <= |t|
  {
    forall k :: i <= k < j ==> t[k] != '\n'
  }

  /**
   * The lazy name group of the title pattern, anchored at the start: the first position at or after `i`
   * where the tag starts, reached without crossing a line break (the pattern's `.` does not match one).
   */
  function FindTag(t: string, i: nat): (r: Option<nat>)
    requires i <= |t|
    ensures r.Some? ==> i <= r.value <= |t| && TagAt(t, r.value)
    ensures r.Some? ==> forall j :: i <= j < r.value ==> !TagAt(t, j) && t[j] != '\n'
    ensures r.None? ==> forall j :: i <= j <= |t| && NoLineBreak(t, i, j) ==> !TagAt(t, j)
    decreases |t| - i
  {
    if TagAt(t, i) then Some(i)
    else if i < |t| && t[i] != '\n' then FindTag(t, i + 1)
    else None
  }

  /** The name a page title gives: the text before the ` (MMDBm<digits>)` tag, or the whole title. */
  function NameFromTitle(title: string): (name: string)
    ensures |name| <= |title|
    ensures var t := Strip(title);
      (forall j :: 0 <= j <= |t| && NoLineBreak(t, 0, j) ==> !TagAt(t, j)) ==> name == t
    ensures var t := Strip(title);
      forall i :: 0 <= i <= |t| && TagAt(t, i) && NoLineBreak(t, 0, i) && (forall j :: 0 <= j < i ==> !TagAt(t, j)) ==>
        name == Strip(t[..i])
  {
    var t := Strip(title);
    match FindTag(t, 0)
    case Some(i) => Strip(t[..i])
    case None => t
  }

  /** A title made of a name and its tag gives back the name. */
  lemma NameFromTaggedTitle(name: string, digits: string)
    requires name != [] && !IsSpace(name[0]) && !IsSpace(name[|name| - 1])
    requires '(' !in name && '\n' !in name
    requires digits != [] && forall k :: 0 <= k < |digits| ==> IsDigit(digits[k])
    ensures NameFromTitle(name + TagOpening + digits + ")") == name
  {
    var t := name + TagOpening + digits + ")";
    TrimLeftNoOp(t);
    TrimRightNoOp(t);
    assert Strip(t) == t;
    TagAfterName(name, digits);
    NoTagInName(name, digits);
    SkipToTag(t, 0, |name|);
    assert t[..|name|] == name;
    TrimLeftNoOp(name);
    TrimRightNoOp(name);
  }

  /** The tag appended to a name starts right after it. */
  lemma TagAfterName(name: string, digits: string)
    requires digits != [] && forall k :: 0 <= k < |digits| ==> IsDigit(digits[k])
    ensures TagAt(name + TagOpening + digits + ")", |name|)
  {
    var t := name + TagOpening + digits + ")";
    var n := |name|;
    assert OccursAt(t, TagOpening, n) by { assert t[n..n + |TagOpening|] == TagOpening; }
    var start := n + |TagOpening|;
    forall k | start <= k < start + |digits| ensures IsDigit(t[k]) {
      assert t[k] == digits[k - start];
    }
    DigitRunReaches(t, start, start + |digits|);
  }

  /** No tag starts inside a name without an opening parenthesis or a line break. */
  lemma NoTagInName(name: string, digits: string)
    requires '(' !in name && '\n' !in name
    ensures var t := name + TagOpening + digits + ")";
      forall j :: 0 <= j < |name| ==> !TagAt(t, j) && t[j] != '\n'
  {
    var t := name + TagOpening + digits + ")";
    var n := |name|;
    forall j | 0 <= j < n ensures !TagAt(t, j) && t[j] != '\n' {
      assert t[j] == name[j];
      assert t[j + 1] == if j + 1 < n then name[j + 1] else ' ';
    }
  }

  lemma {:induction false} DigitRunReaches(t: string, j: nat, e: nat)
    requires j <= e < |t| && t[e] == ')'
    requires forall k :: j <= k < e ==> IsDigit(t[k])
    ensures DigitRunEnd(t, j) == e
    decreases e - j
  {
    if j < e {
      DigitRunReaches(t, j + 1, e);
    }
  }

  lemma {:induction false} SkipToTag(t: string, i: nat, n: nat)
    requires i <= n <= |t| && TagAt(t, n)
    requires forall j :: i <= j < n ==> !TagAt(t, j) && t[j] != '\n'
    ensures FindTag(t, i) == Some(n)
    decreases n - i
  {
    if i < n {
      SkipToTag(t, i + 1, n);
    }
  }

  /**
   * The column values `scrape_bacteria_data` reads from a detail page: the id it was asked for, the
   * name from the title, the taxonomy and the properties rows in order, and the pathogen flag from the
   * disease cell.
   */
  function ScrapedRecord(bacteriaId: string, page: DetailPage, extractTemperature: string -> Option<real>): Record {
    var base := map["bacteria_id" := Str(bacteriaId)];
    var named := if page.title.Some? then base["name" := Str(NameFromTitle(page.title.value))] else base;
    var withTaxonomy := Fill(named, page.taxRows, TaxEntry);
    var withProperties := Fill(withTaxonomy, page.propRows, row => PropEntry(row, extractTemperature));
    if page.disease.Some? then withProperties["is_pathogen" := Bool(IsPathogen(page.disease.value))]
    else withProperties
  }

  /** `scrape_bacteria_data`: no record when the page could not be fetched. */
  method ScrapeBacteriaData(bacteriaId: string, page: Option<DetailPage>, extractTemperature: string -> Option<real>)
    returns (data: Option<Record>)
    ensures page.None? ==> data.None?
    ensures page.Some? ==> data == Some(ScrapedRecord(bacteriaId, page.value, extractTemperature))
  {
    if page.None? {
      return None;
    }
    var p := page.value;
    var record := map["bacteria_id" := Str(bacteriaId)];
    if p.title.Some? {
      record := record["name" := Str(NameFromTitle(p.title.value))];
    }
    record := FillFromRows(record, p.taxRows, TaxEntry);
    record := FillFromRows(record, p.propRows, row => PropEntry(row, extractTemperature));
    if p.disease.Some? {
      record := record["is_pathogen" := Bool(IsPathogen(p.disease.value))];
    }
    data := Some(record);
  }

  /** The columns the taxonomy and properties tables can fill: every data column but the key and the flag. */
  const TableColumns: set<string> := DataColumnSet - {"bacteria_id", "is_pathogen"}

  /** Every taxonomy header fills one of the table columns. */
  lemma TaxTargets()
    ensures forall h :: h in TaxMap ==> TaxMap[h] in TableColumns
  {
  }

  /** Every properties header fills one of the table columns. */
  lemma PropTargets()
    ensures forall h :: h in PropMap ==> PropMap[h] in TableColumns
  {
  }

  /** Rows whose entries only name columns of `allowed` add only those and keep every other column. */
  lemma {:induction false} FillWithin(data: Record, rows: seq<Cells>, entry: Cells -> Option<(string, Value)>,
                                      allowed: set<string>)
    requires forall k :: 0 <= k < |rows| && entry(rows[k]).Some? ==> entry(rows[k]).value.0 in allowed
    ensures var r := Fill(data, rows, entry);
      r.Keys <= data.Keys + allowed && forall k :: k in data && k !in allowed ==> r[k] == data[k]
  {
    if rows != [] {
      FillWithin(data, rows[..|rows| - 1], entry, allowed);
    }
  }

  /** Filling from both tables adds only table columns and keeps the key and the flag as they were. */
  lemma TablesWithin(data: Record, page: DetailPage, extractTemperature: string -> Option<real>)
    ensures var r := Fill(Fill(data, page.taxRows, TaxEntry), page.propRows, row => PropEntry(row, extractTemperature));
      r.Keys <= data.Keys + TableColumns && forall k :: k in data && k !in TableColumns ==> r[k] == data[k]
  {
    TaxTargets();
    PropTargets();
    FillWithin(data, page.taxRows, TaxEntry, TableColumns);
    FillWithin(Fill(data, page.taxRows, TaxEntry), page.propRows, row => PropEntry(row, extractTemperature), TableColumns);
  }

  /**
   * A scraped record names data columns only, carries the requested id, and has a pathogen flag exactly
   * when the page has a disease cell.
   */
  lemma ScrapedColumns(bacteriaId: string, page: DetailPage, extractTemperature: string -> Option<real>)
    ensures var r := ScrapedRecord(bacteriaId, page, extractTemperature);
      && Insertable(r) && IdOf(r) == bacteriaId
      && ("is_pathogen" in r <==> page.disease.Some?)
  {
    var base := map["bacteria_id" := Str(bacteriaId)];
    var named := if page.title.Some? then base["name" := Str(NameFromTitle(page.title.value))] else base;
    TablesWithin(named, page, extractTemperature);
    assert named.Keys <= DataColumnSet;
  }

  /** The values of `data` for columns of the table (the `hasattr` test and the `valid_keys` filter). */
  function ColumnValues(data: Record): (values: Record)
    ensures values.Keys == data.Keys * DataColumnSet
    ensures forall c :: c in values ==> values[c] == data[c]
  {
    map c | c in data && c in DataColumnSet :: data[c]
  }

  /**
   * `save_bacteria_data`: without the table model or without a `bacteria_id` nothing is saved; a row
   * with that natural key gets the record's column values written over its own, and otherwise a new
   * row is inserted from them. A failed commit (`commitOk` false, including the integrity error of a
   * key that is not a string) rolls back and reports `false`.
   */
  method SaveBacteriaData(t: Table, data: Record, modelAvailable: bool, commitOk: bool) returns (saved: bool)
    requires t.Valid()
    modifies t
    ensures t.Valid()
    ensures saved <==> modelAvailable && "bacteria_id" in data && data["bacteria_id"].Str? && commitOk
    ensures !saved ==> t.rows == old(t.rows) && t.nextId == old(t.nextId)
    ensures saved ==> var id := data["bacteria_id"].s;
      match IndexOfBacteriaId(old(t.rows), id)
      case Some(k) =>
        && t.rows == old(t.rows)[k := Row(old(t.rows)[k].id, old(t.rows)[k].cols + ColumnValues(data))]
        && t.nextId == old(t.nextId)
      case None =>
        t.rows == old(t.rows) + [NewRow(old(t.nextId), ColumnValues(data))] && t.nextId == old(t.nextId) + 1
    ensures saved ==> var found := IndexOfBacteriaId(t.rows, data["bacteria_id"].s);
      && found.Some?
      && forall c :: c in data && c in DataColumnSet ==> t.rows[found.value].cols[c] == data[c]
  {
    if !modelAvailable || "bacteria_id" !in data || !data["bacteria_id"].Str? || !commitOk {
      return false;
    }
    WriteRecord(t, ColumnValues(data));
    saved := true;
  }

  /** The upsert of a record's column values by their natural key, as one committed transaction. */
  method WriteRecord(t: Table, values: Record)
    requires t.Valid() && Insertable(values)
    modifies t
    ensures t.Valid()
    ensures match IndexOfBacteriaId(old(t.rows), IdOf(values))
      case Some(k) =>
        && t.rows == old(t.rows)[k := Row(old(t.rows)[k].id, old(t.rows)[k].cols + values)]
        && t.nextId == old(t.nextId)
      case None =>
        t.rows == old(t.rows) + [NewRow(old(t.nextId), values)] && t.nextId == old(t.nextId) + 1
    ensures var found := IndexOfBacteriaId(t.rows, IdOf(values));
      found.Some? && forall c :: c in values ==> t.rows[found.value].cols[c] == values[c]
  {
    var existing := IndexOfBacteriaId(t.rows, IdOf(values));
    if existing.Some? {
      var k := existing.value;
      var cols := SetFields(t.rows[k].cols, values);
      assert cols == t.rows[k].cols + values;
      UpdateSaved(t.rows, t.nextId, k, values);
      t.rows := t.rows[k := Row(t.rows[k].id, cols)];
    } else {
      var row := NewRow(t.nextId, values);
      NewRowColumns(t.nextId, values);
      InsertSaved(t.rows, row);
      row := t.Insert(values);
    }
  }
}
