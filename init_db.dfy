/**
 * The initial load of the `bacteria` table from the MiMeDB microbes CSV export: cell cleaners, the
 * gram-stain canonicaliser, the mapping of CSV columns onto table columns, and the batched, de-duplicating
 * population loop guarded by an empty-table check.
 */
module InitDb {
  import opened Wrappers
  import opened Values
  import opened Text
  import opened BacteriaStore

  /** Lower-cased cell texts that stand for a missing value. */
  const MissingMarkers: set<string> := {"not available", "na", "n/a", "", "#n/a", "nan", "<na>", "null"}

  /** Lower-cased cell texts read as true and as false. */
  const TrueTokens: set<string> := {"true", "yes", "1", "present", "positive", "y", "pathogenic"}
  const FalseTokens: set<string> := {"false", "no", "0", "absent", "negative", "n", "non-pathogenic"}

  /**
   * `clean_value`: a cell (`None` stands for a NaN cell) becomes its stripped text, or `None` when it is
   * NaN or its stripped, lower-cased text is one of the missing-value markers.
   */
  function CleanValue(cell: Option<string>): (r: Option<string>)
    ensures r.None? <==> cell.None? || Lower(Strip(cell.value)) in MissingMarkers
    ensures r.Some? ==> r.value == Strip(cell.value) && r.value != ""
  {
    match cell
    case None => None
    case Some(raw) =>
      var stripped := Strip(raw);
      if Lower(stripped) in MissingMarkers then None else Some(stripped)
  }

  /** Cleaning a cleaned value changes nothing. */
  lemma CleanValueIdempotent(cell: Option<string>)
    requires CleanValue(cell).Some?
    ensures CleanValue(Some(CleanValue(cell).value)) == CleanValue(cell)
  {
    StripIdempotent(cell.value);
  }

  /**
   * `clean_boolean`: the stripped, lower-cased text gives true or false when it is one of the recognised
   * tokens, and `None` otherwise (a missing marker and an unrecognised text alike).
   */
  function CleanBoolean(cell: Option<string>): (r: Option<bool>)
    ensures cell.None? ==> r.None?
    ensures cell.Some? ==> var token := Lower(Strip(cell.value));
      && (r == Some(true) <==> token in TrueTokens)
      && (r == Some(false) <==> token in FalseTokens)
  {
    match cell
    case None => None
    case Some(raw) =>
      var token := Lower(Strip(raw));
      TokenSetsDisjoint();
      if token in TrueTokens then Some(true)
      else if token in FalseTokens then Some(false)
      else None
  }

  /** A recognised boolean token is never a missing-value marker, so the cell also cleans to a value. */
  lemma RecognisedBooleanIsPresent(cell: Option<string>)
    requires CleanBoolean(cell).Some?
    ensures CleanValue(cell).Some?
  {
    var token := Lower(Strip(cell.value));
    assert token in TrueTokens || token in FalseTokens;
    TokenSetsDisjoint();
  }

  /** No text is both a true and a false token, and no token is a missing-value marker. */
  lemma TokenSetsDisjoint()
    ensures TrueTokens !! FalseTokens
    ensures TrueTokens !! MissingMarkers && FalseTokens !! MissingMarkers
  {
  }

  const CanonicalGramStains: set<string> := {"Positive", "Negative", "Variable"}

  /**
   * The gram-stain canonicaliser of the loader: a cleaned text mentioning "positive", else "negative",
   * else "variable" (in any case) becomes that label; any other cleaned text is kept; a missing value
   * stays missing.
   */
  function CanonicalGramStain(cell: Option<string>): (r: Option<string>)
    ensures r.None? <==> CleanValue(cell).None?
    ensures r.Some? ==> var l := Lower(CleanValue(cell).value);
      && (Contains(l, "positive") ==> r.value == "Positive")
      && (!Contains(l, "positive") && Contains(l, "negative") ==> r.value == "Negative")
      && (!Contains(l, "positive") && !Contains(l, "negative") && Contains(l, "variable") ==> r.value == "Variable")
      && (!Contains(l, "positive") && !Contains(l, "negative") && !Contains(l, "variable") ==> r == CleanValue(cell))
  {
    match CleanValue(cell)
    case None => None
    case Some(cleaned) =>
      var l := Lower(cleaned);
      if Contains(l, "positive") then Some("Positive")
      else if Contains(l, "negative") then Some("Negative")
      else if Contains(l, "variable") then Some("Variable")
      else Some(cleaned)
  }

  /** Canonicalising a canonical gram stain changes nothing: the three labels map to themselves. */
  lemma CanonicalGramStainIdempotent(cell: Option<string>)
    requires CanonicalGramStain(cell).Some?
    ensures CanonicalGramStain(Some(CanonicalGramStain(cell).value)) == CanonicalGramStain(cell)
  {
    var r := CanonicalGramStain(cell).value;
    if r == "Positive" {
      PositiveStable();
    } else if r == "Negative" {
      NegativeStable();
    } else if r == "Variable" {
      VariableStable();
    } else {
      CleanValueIdempotent(cell);
      SameCleanSameStain(Some(r), cell);
    }
  }

  /** The canonical stain depends on the cleaned value only. */
  lemma SameCleanSameStain(a: Option<string>, b: Option<string>)
    requires CleanValue(a) == CleanValue(b)
    ensures CanonicalGramStain(a) == CanonicalGramStain(b)
  {
  }

  lemma PositiveStable()
    ensures CanonicalGramStain(Some("Positive")) == Some("Positive")
  {
    PositiveText();
    CleanValueKeeps("Positive");
    assert OccursAt("positive", "positive", 0);
  }

  lemma NegativeStable()
    ensures CanonicalGramStain(Some("Negative")) == Some("Negative")
  {
    NegativeText();
    CleanValueKeeps("Negative");
    SameLengthContains("negative", "positive");
    assert OccursAt("negative", "negative", 0);
  }

  lemma VariableStable()
    ensures CanonicalGramStain(Some("Variable")) == Some("Variable")
  {
    VariableText();
    CleanValueKeeps("Variable");
    SameLengthContains("variable", "positive");
    SameLengthContains("variable", "negative");
    assert OccursAt("variable", "variable", 0);
  }

  /** Each canonical label is already stripped, and its lower-case form is the keyword that selects it. */
  lemma PositiveText()
    ensures Strip("Positive") == "Positive"
    ensures Lower("Positive") == "positive"
  {
    StripKeeps("Positive");
    PositiveLower();
  }

  lemma PositiveLower()
    ensures Lower("Positive") == "positive"
  {
  }

  lemma NegativeText()
    ensures Strip("Negative") == "Negative"
    ensures Lower("Negative") == "negative"
  {
    StripKeeps("Negative");
    NegativeLower();
  }

  lemma NegativeLower()
    ensures Lower("Negative") == "negative"
  {
  }

  lemma VariableText()
    ensures Strip("Variable") == "Variable"
    ensures Lower("Variable") == "variable"
  {
    StripKeeps("Variable");
    VariableLower();
  }

  lemma VariableLower()
    ensures Lower("Variable") == "variable"
  {
  }

  /** A text with no whitespace at either end is its own strip. */
  lemma StripKeeps(s: string)
    requires s != [] && !IsSpace(s[0]) && !IsSpace(s[|s| - 1])
    ensures Strip(s) == s
  {
    TrimLeftNoOp(s);
    TrimRightNoOp(s);
  }

  /** A stripped text that is no missing-value marker cleans to itself. */
  lemma CleanValueKeeps(s: string)
    requires Strip(s) == s && Lower(s) !in MissingMarkers
    ensures CleanValue(Some(s)) == Some(s)
  {
  }

  /** A text contains another of the same length only when they are equal. */
  lemma SameLengthContains(s: string, sub: string)
    requires |s| == |sub|
    ensures Contains(s, sub) <==> s == sub
  {
    if Contains(s, sub) {
      var i :| 0 <= i <= |s| - |sub| && OccursAt(s, sub, i);
      assert i == 0 && s[..|s|] == s;
    } else {
      assert !OccursAt(s, sub, 0);
      assert s[0..|sub|] == s;
    }
  }

  /** The source CSV columns and the table columns they load into, in the loader's order. */
  const ColumnMapping: seq<(string, string)> := [
    ("microbe_id", "bacteria_id"), ("name", "name"), ("superkingdom", "superkingdom"), ("kingdom", "kingdom"),
    ("phylum", "phylum"), ("klass", "class_name"), ("order", "order"), ("family", "family"), ("genus", "genus"),
    ("species", "species"), ("strain", "strain"), ("gram", "gram_stain"), ("shape", "shape"),
    ("mobility", "mobility"), ("flagella_presence", "flagellar_presence"),
    ("number_of_membranes", "number_of_membranes"), ("oxygen_requirement", "oxygen_preference"),
    ("optimal_temperature", "optimal_temperature"), ("temperature_range", "temperature_range"),
    ("habitat", "habitat"), ("biotic_relationship", "biotic_relationship"),
    ("cell_arrangement", "cell_arrangement"), ("sporulation", "sporulation"), ("metabolism", "metabolism"),
    ("energy_source", "energy_source"), ("human_pathogen", "is_pathogen")]

  /** The table columns loaded through `clean_boolean`. */
  const BooleanColumns: set<string> := {"mobility", "flagellar_presence", "sporulation", "is_pathogen"}

  /** The mapping loads every data column exactly once, in declaration order, starting with the natural key. */
  lemma MappingTargets()
    ensures |ColumnMapping| == |DataColumns| == 26
    ensures forall i :: 0 <= i < |ColumnMapping| ==> ColumnMapping[i].1 == DataColumns[i]
    ensures forall i, j :: 0 <= i < j < |DataColumns| ==> DataColumns[i] != DataColumns[j]
    ensures DataColumns[0] == "bacteria_id"
  {
    DistinctWithin(0, 9);
    DistinctWithin(9, 18);
    DistinctWithin(18, 26);
    DistinctAcross(0, 9, 26);
    DistinctAcross(9, 18, 26);
  }

  /** The data columns declared at positions `lo` to `hi` are pairwise distinct. */
  lemma DistinctWithin(lo: nat, hi: nat)
    requires lo <= hi <= |DataColumns| && hi - lo <= 9
    ensures forall i, j :: lo <= i < j < hi ==> DataColumns[i] != DataColumns[j]
  {
  }

  /** No data column declared before `mid` reappears at or after it. */
  lemma DistinctAcross(lo: nat, mid: nat, hi: nat)
    requires lo <= mid <= hi <= |DataColumns| && mid - lo <= 9
    ensures forall i, j :: lo <= i < mid <= j < hi ==> DataColumns[i] != DataColumns[j]
  {
  }

  /** One CSV line: column name to cell text (the file is read with every cell as text). */
  type CsvRow = map<string, string>

  /** A CSV file: its header columns and its lines. */
  datatype CsvFile = CsvFile(columns: set<string>, rows: seq<CsvRow>)

  /** `row.get(column, "")`. */
  function Cell(row: CsvRow, column: string): string {
    if column in row then row[column] else ""
  }

  /**
   * `clean_float`: a missing value stays missing; otherwise the number parsed from the cleaned text.
   * `parseNumber` stands for the first-number regular expression, `float()` and the finiteness test.
   */
  function CleanFloat(cell: Option<string>, parseNumber: string -> Option<real>): (r: Option<real>)
    ensures CleanValue(cell).None? ==> r.None?
    ensures CleanValue(cell).Some? ==> r == parseNumber(CleanValue(cell).value)
  {
    match CleanValue(cell)
    case None => None
    case Some(text) => parseNumber(text)
  }

  /** The value the loader stores in table column `key` for a cell, by the column's cleaner. */
  function FieldValue(key: string, present: bool, raw: string, parseNumber: string -> Option<real>): Value {
    if !present then Null
    else if key in BooleanColumns then OfOptionBool(CleanBoolean(Some(raw)))
    else if key == "optimal_temperature" then OfOptionNum(CleanFloat(Some(raw), parseNumber))
    else if key == "gram_stain" then OfOptionStr(CanonicalGramStain(Some(raw)))
    else OfOptionStr(CleanValue(Some(raw)))
  }

  /** The cleaned value of every mapped column for one CSV line, in mapping order. */
  function FieldValues(columns: set<string>, row: CsvRow, parseNumber: string -> Option<real>): (fields: seq<Value>)
    ensures |fields| == |ColumnMapping|
    ensures forall i :: 0 <= i < |ColumnMapping| ==>
      fields[i] == FieldValue(ColumnMapping[i].1, ColumnMapping[i].0 in columns, Cell(row, ColumnMapping[i].0), parseNumber)
  {
    seq(|ColumnMapping|, i requires 0 <= i < |ColumnMapping| =>
      FieldValue(ColumnMapping[i].1, ColumnMapping[i].0 in columns, Cell(row, ColumnMapping[i].0), parseNumber))
  }

  lemma NotPresentIsNull(key: string, raw: string, parseNumber: string -> Option<real>)
    ensures FieldValue(key, false, raw, parseNumber) == Null
  {
  }

  /** The record after the first `n` entries of the column mapping have been processed. */
  function Prepared(id: string, fields: seq<Value>, n: nat): (r: Record)
    requires |fields| == |DataColumns| && n <= |DataColumns|
    ensures "bacteria_id" in r && r["bacteria_id"] == Str(id)
  {
    if n == 0 then map["bacteria_id" := Str(id)]
    else
      var r := Prepared(id, fields, n - 1);
      var key := DataColumns[n - 1];
      if key == "bacteria_id" then r else r[key := fields[n - 1]]
  }

  /** The record only ever names data columns. */
  lemma {:induction false} PreparedKeys(id: string, fields: seq<Value>, n: nat)
    requires |fields| == |DataColumns| && n <= |DataColumns|
    ensures Prepared(id, fields, n).Keys <= DataColumnSet
  {
    if n > 0 {
      PreparedKeys(id, fields, n - 1);
      assert DataColumns[n - 1] in DataColumnSet;
    }
  }

  /** Each of the columns at positions 1 to `n - 1` holds its cleaned value. */
  predicate HoldsFields(r: Record, fields: seq<Value>, n: nat)
    requires |fields| == |DataColumns| && n <= |DataColumns|
  {
    forall i :: 1 <= i < n ==> DataColumns[i] in r && r[DataColumns[i]] == fields[i]
  }

  /** After `n` entries every one of them past the natural key holds its cleaned value. */
  lemma {:induction false} PreparedFields(id: string, fields: seq<Value>, n: nat)
    requires |fields| == |DataColumns| && n <= |DataColumns|
    ensures HoldsFields(Prepared(id, fields, n), fields, n)
  {
    if n > 0 {
      PreparedFields(id, fields, n - 1);
      PreparedFieldsStep(id, fields, n);
    }
  }

  lemma PreparedFieldsStep(id: string, fields: seq<Value>, n: nat)
    requires |fields| == |DataColumns| && 0 < n <= |DataColumns|
    requires HoldsFields(Prepared(id, fields, n - 1), fields, n - 1)
    ensures HoldsFields(Prepared(id, fields, n), fields, n)
  {
    var prev, r := Prepared(id, fields, n - 1), Prepared(id, fields, n);
    if n == 1 {
      assert r == prev;
    } else {
      ColumnsDiffer(0, n - 1);
      assert r == prev[DataColumns[n - 1] := fields[n - 1]];
      forall i | 1 <= i < n - 1 ensures DataColumns[i] in r && r[DataColumns[i]] == fields[i] {
        ColumnsDiffer(i, n - 1);
      }
    }
  }

  /** Two positions of the column list hold different columns. */
  lemma ColumnsDiffer(i: nat, j: nat)
    requires i < j < |DataColumns|
    ensures DataColumns[i] != DataColumns[j]
  {
    MappingTargets();
  }

  /**
   * The record queued for one CSV line with natural key `id`: exactly the data columns, the natural key
   * set, every mapped column cleaned by its cleaner, and NULL for a mapped column the file lacks.
   */
  function CsvRecord(columns: set<string>, row: CsvRow, id: string, parseNumber: string -> Option<real>)
    : (r: Record)
    ensures Insertable(r) && IdOf(r) == id
  {
    MappingOrder();
    var fields := FieldValues(columns, row, parseNumber);
    var p := Prepared(id, fields, |fields|);
    PreparedKeys(id, fields, |fields|);
    map k | k in p && k in AllColumns :: p[k]
  }

  /** Every data column past the natural key holds the cleaned value of its CSV cell. */
  lemma CsvRecordFields(columns: set<string>, row: CsvRow, id: string, parseNumber: string -> Option<real>)
    ensures var r := CsvRecord(columns, row, id, parseNumber);
      forall i :: 1 <= i < |DataColumns| ==>
        DataColumns[i] in r && r[DataColumns[i]] == FieldValues(columns, row, parseNumber)[i]
  {
    MappingOrder();
    var fields := FieldValues(columns, row, parseNumber);
    PreparedFields(id, fields, |fields|);
  }

  /** The record of a CSV line sets every data column. */
  lemma CsvRecordColumns(columns: set<string>, row: CsvRow, id: string, parseNumber: string -> Option<real>)
    ensures FullRecord(CsvRecord(columns, row, id, parseNumber))
  {
    CsvRecordCoversColumns(columns, row, id, parseNumber);
  }

  lemma CsvRecordCoversColumns(columns: set<string>, row: CsvRow, id: string, parseNumber: string -> Option<real>)
    ensures DataColumnSet <= CsvRecord(columns, row, id, parseNumber).Keys
  {
    var r := CsvRecord(columns, row, id, parseNumber);
    CsvRecordFields(columns, row, id, parseNumber);
    forall c | c in DataColumnSet ensures c in r {
      var i :| 0 <= i < |DataColumns| && DataColumns[i] == c;
      assert i == 0 ==> c == "bacteria_id";
    }
  }

  /** A mapped column the CSV file lacks is loaded as NULL. */
  lemma MissingColumnIsNull(columns: set<string>, row: CsvRow, id: string, parseNumber: string -> Option<real>, i: nat)
    requires 1 <= i < |ColumnMapping| && ColumnMapping[i].0 !in columns
    ensures var r := CsvRecord(columns, row, id, parseNumber); ColumnMapping[i].1 in r && r[ColumnMapping[i].1] == Null
  {
    var fields := FieldValues(columns, row, parseNumber);
    var r := CsvRecord(columns, row, id, parseNumber);
    var entry := ColumnMapping[i];
    assert fields[i] == FieldValue(entry.1, entry.0 in columns, Cell(row, entry.0), parseNumber);
    NotPresentIsNull(entry.1, Cell(row, entry.0), parseNumber);
    CsvRecordFields(columns, row, id, parseNumber);
    MappingOrder();
    assert entry.1 == DataColumns[i];
  }

  /**
   * The record preparation of `populate_from_csv`: a loop over the column mapping that skips the
   * natural key, then the filter down to the table's columns.
   */
  method PrepareRecord(columns: set<string>, row: CsvRow, id: string, parseNumber: string -> Option<real>)
    returns (rec: Record)
    ensures rec == CsvRecord(columns, row, id, parseNumber)
  {
    MappingOrder();
    ghost var fields := FieldValues(columns, row, parseNumber);
    rec := map["bacteria_id" := Str(id)];
    for n := 0 to |ColumnMapping|
      invariant rec == Prepared(id, fields, n)
    {
      var (csvColumn, key) := ColumnMapping[n];
      PreparedStep(columns, row, id, parseNumber, n);
      if key != "bacteria_id" {
        rec := rec[key := FieldValue(key, csvColumn in columns, Cell(row, csvColumn), parseNumber)];
      }
    }
    rec := map k | k in rec && k in AllColumns :: rec[k];
  }

  /** One more entry of the mapping sets its column to the cleaned cell, except for the natural key. */
  lemma PreparedStep(columns: set<string>, row: CsvRow, id: string, parseNumber: string -> Option<real>, n: nat)
    requires n < |ColumnMapping|
    ensures |FieldValues(columns, row, parseNumber)| == |DataColumns|
    ensures var fields := FieldValues(columns, row, parseNumber);
      var (csvColumn, key) := ColumnMapping[n];
      Prepared(id, fields, n + 1) ==
        if key == "bacteria_id" then Prepared(id, fields, n)
        else Prepared(id, fields, n)[key := FieldValue(key, csvColumn in columns, Cell(row, csvColumn), parseNumber)]
  {
    MappingOrder();
    var fields := FieldValues(columns, row, parseNumber);
    assert ColumnMapping[n].1 == DataColumns[n];
  }

  /** The mapping targets the data columns in declaration order. */
  lemma MappingOrder()
    ensures |ColumnMapping| == |DataColumns| == 26
    ensures forall i :: 0 <= i < |ColumnMapping| ==> ColumnMapping[i].1 == DataColumns[i]
  {
  }

  /** The number of records per multi-row insert. */
  const BatchSize: nat := 500

  /** Every record of the list is insertable. */
  predicate AllInsertable(records: seq<Record>) {
    forall k :: 0 <= k < |records| ==> Insertable(records[k])
  }

  /** What the scan of the CSV lines has queued, the natural keys seen so far, and the duplicates skipped. */
  datatype ScanState = ScanState(queued: seq<Record>, seen: set<string>, duplicates: nat)

  /** The queued records are insertable, their keys distinct and exactly the keys seen. */
  predicate ScanInvariant(s: ScanState) {
    && AllInsertable(s.queued)
    && UniqueIds(s.queued)
    && s.seen == IdSet(s.queued)
  }

  /**
   * The de-duplicating scan of `populate_from_csv` over a prefix of the lines, one line at a time
   * (`ScanLine`).
   */
  function Scan(columns: set<string>, rows: seq<CsvRow>, parseNumber: string -> Option<real>): (s: ScanState)
    ensures |s.queued| + s.duplicates <= |rows|
  {
    if rows == [] then ScanState([], {}, 0)
    else ScanLine(columns, Scan(columns, rows[..|rows| - 1], parseNumber), rows[|rows| - 1], parseNumber)
  }

  /**
   * One line of the scan: a line whose natural key cleans to nothing is skipped, a line whose key was
   * already seen counts as a duplicate, and any other line queues its record and marks its key seen.
   */
  function ScanLine(columns: set<string>, before: ScanState, row: CsvRow, parseNumber: string -> Option<real>)
    : (after: ScanState)
    ensures |after.queued| + after.duplicates <= |before.queued| + before.duplicates + 1
  {
    match CleanValue(Some(Cell(row, "microbe_id")))
    case None => before
    case Some(id) =>
      if id in before.seen then before.(duplicates := before.duplicates + 1)
      else ScanState(before.queued + [CsvRecord(columns, row, id, parseNumber)], before.seen + {id}, before.duplicates)
  }

  /** The scan keeps its invariant: the queued keys are distinct and exactly the keys seen. */
  lemma {:induction false} ScanKeepsInvariant(columns: set<string>, rows: seq<CsvRow>,
                                              parseNumber: string -> Option<real>)
    ensures ScanInvariant(Scan(columns, rows, parseNumber))
  {
    if rows != [] {
      ScanKeepsInvariant(columns, rows[..|rows| - 1], parseNumber);
      ScanLineKeepsInvariant(columns, Scan(columns, rows[..|rows| - 1], parseNumber), rows[|rows| - 1], parseNumber);
    }
  }

  /** Scanning one line keeps the invariant: a record is queued only under a key not seen before. */
  lemma ScanLineKeepsInvariant(columns: set<string>, before: ScanState, row: CsvRow,
                               parseNumber: string -> Option<real>)
    requires ScanInvariant(before)
    ensures ScanInvariant(ScanLine(columns, before, row, parseNumber))
  {
    var id := CleanValue(Some(Cell(row, "microbe_id")));
    if id.Some? && id.value !in before.seen {
      ScanQueuesNew(columns, before, row, parseNumber);
      QueueFresh(before.queued, CsvRecord(columns, row, id.value, parseNumber));
    } else {
      ScanKeepsQueue(columns, before, row, parseNumber);
    }
  }

  /** Scanning one more line of the file. */
  lemma ScanPrefix(columns: set<string>, rows: seq<CsvRow>, i: nat, parseNumber: string -> Option<real>)
    requires i < |rows|
    ensures Scan(columns, rows[..i + 1], parseNumber)
         == ScanLine(columns, Scan(columns, rows[..i], parseNumber), rows[i], parseNumber)
  {
    assert rows[..i + 1][..i] == rows[..i];
  }

  /** A line without a usable key, or with a key already seen, queues nothing and sees no new key. */
  lemma ScanKeepsQueue(columns: set<string>, before: ScanState, row: CsvRow, parseNumber: string -> Option<real>)
    requires var id := CleanValue(Some(Cell(row, "microbe_id"))); id.None? || id.value in before.seen
    ensures var after, id := ScanLine(columns, before, row, parseNumber), CleanValue(Some(Cell(row, "microbe_id")));
      && after.queued == before.queued && after.seen == before.seen
      && after.duplicates == if id.None? then before.duplicates else before.duplicates + 1
  {
  }

  /** A line with a key not seen before queues its record and marks the key seen. */
  lemma ScanQueuesNew(columns: set<string>, before: ScanState, row: CsvRow, parseNumber: string -> Option<real>)
    requires var id := CleanValue(Some(Cell(row, "microbe_id"))); id.Some? && id.value !in before.seen
    ensures var after, id := ScanLine(columns, before, row, parseNumber), CleanValue(Some(Cell(row, "microbe_id"))).value;
      && after.queued == before.queued + [CsvRecord(columns, row, id, parseNumber)]
      && after.seen == before.seen + {id} && after.duplicates == before.duplicates
  {
  }

  /** A record that sets every data column and nothing else. */
  predicate FullRecord(r: Record) {
    r.Keys == DataColumnSet
  }

  /** Every record of the list sets every data column. */
  predicate AllFull(q: seq<Record>) {
    forall k :: 0 <= k < |q| ==> FullRecord(q[k])
  }

  /** Every record the scan queues sets every data column. */
  lemma {:induction false} ScanQueuesFullRecords(columns: set<string>, rows: seq<CsvRow>,
                                                 parseNumber: string -> Option<real>)
    ensures AllFull(Scan(columns, rows, parseNumber).queued)
  {
    if rows != [] {
      ScanQueuesFullRecords(columns, rows[..|rows| - 1], parseNumber);
      ScanLineFull(columns, Scan(columns, rows[..|rows| - 1], parseNumber), rows[|rows| - 1], parseNumber);
    }
  }

  /** Scanning one line queues, if anything, a record that sets every data column. */
  lemma ScanLineFull(columns: set<string>, before: ScanState, row: CsvRow, parseNumber: string -> Option<real>)
    requires AllFull(before.queued)
    ensures AllFull(ScanLine(columns, before, row, parseNumber).queued)
  {
    var id := CleanValue(Some(Cell(row, "microbe_id")));
    if id.Some? && id.value !in before.seen {
      ScanQueuesNew(columns, before, row, parseNumber);
      CsvRecordColumns(columns, row, id.value, parseNumber);
      AppendFull(before.queued, CsvRecord(columns, row, id.value, parseNumber));
    } else {
      ScanKeepsQueue(columns, before, row, parseNumber);
    }
  }

  lemma AppendFull(q: seq<Record>, rec: Record)
    requires AllFull(q) && FullRecord(rec)
    ensures AllFull(q + [rec])
  {
    var q' := q + [rec];
    forall k | 0 <= k < |q'| ensures FullRecord(q'[k]) {
      if k < |q| {
        assert q'[k] == q[k];
      }
    }
  }

  /** Queueing a record with a fresh key keeps the keys unique and adds that key. */
  lemma QueueFresh(queued: seq<Record>, rec: Record)
    requires AllInsertable(queued) && UniqueIds(queued)
    requires Insertable(rec) && IdOf(rec) !in IdSet(queued)
    ensures AllInsertable(queued + [rec]) && UniqueIds(queued + [rec])
    ensures IdSet(queued + [rec]) == IdSet(queued) + {IdOf(rec)}
    ensures forall k :: 0 <= k < |queued| ==> (queued + [rec])[k] == queued[k]
  {
    var q := queued + [rec];
    assert forall k :: 0 <= k < |queued| ==> q[k] == queued[k];
    assert q[|queued|] == rec;
    IdSetAppend(queued, [rec]);
  }

  /** One attempted multi-row insert and whether it was committed. */
  datatype Batch = Batch(records: seq<Record>, committed: bool)

  /** The counters `populate_from_csv` reports. */
  datatype Summary = Summary(processed: nat, inserted: nat, skippedDuplicates: nat, insertErrors: nat)

  /** All records of the attempted batches, in order. */
  function Attempted(batches: seq<Batch>): seq<Record> {
    if batches == [] then []
    else Attempted(batches[..|batches| - 1]) + batches[|batches| - 1].records
  }

  /** The records of the committed batches, in order. */
  function Committed(batches: seq<Batch>): seq<Record> {
    if batches == [] then []
    else
      var last := batches[|batches| - 1];
      Committed(batches[..|batches| - 1]) + (if last.committed then last.records else [])
  }

  /** The committed records are among the attempted ones. */
  lemma {:induction false} CommittedAmongAttempted(batches: seq<Batch>)
    ensures |Committed(batches)| <= |Attempted(batches)|
    ensures forall r :: r in Committed(batches) ==> r in Attempted(batches)
  {
    if batches != [] {
      CommittedAmongAttempted(batches[..|batches| - 1]);
    }
  }

  /** The natural keys of two lists together. */
  lemma IdSetAppend(a: seq<Record>, b: seq<Record>)
    requires AllInsertable(a) && AllInsertable(b)
    ensures AllInsertable(a + b)
    ensures IdSet(a + b) == IdSet(a) + IdSet(b)
  {
    var ab := a + b;
    forall x | x in IdSet(ab) ensures x in IdSet(a) + IdSet(b) {
      var k :| 0 <= k < |ab| && IdOf(ab[k]) == x;
      if k < |a| { assert ab[k] == a[k]; } else { assert ab[k] == b[k - |a|]; }
    }
    forall x | x in IdSet(a) + IdSet(b) ensures x in IdSet(ab) {
      if x in IdSet(a) {
        var k :| 0 <= k < |a| && IdOf(a[k]) == x;
        assert ab[k] == a[k];
      } else {
        var k :| 0 <= k < |b| && IdOf(b[k]) == x;
        assert ab[|a| + k] == b[k];
      }
    }
  }

  /** Keys unique across two lists are unique within each and disjoint between them. */
  lemma UniqueSplit(a: seq<Record>, b: seq<Record>)
    requires AllInsertable(a) && AllInsertable(b) && AllInsertable(a + b) && UniqueIds(a + b)
    ensures UniqueIds(a) && UniqueIds(b) && IdSet(a) !! IdSet(b)
  {
    var ab := a + b;
    assert forall k :: 0 <= k < |a| ==> ab[k] == a[k];
    assert forall k :: 0 <= k < |b| ==> ab[|a| + k] == b[k];
    UniqueSplitDisjoint(a, b);
  }

  lemma UniqueSplitDisjoint(a: seq<Record>, b: seq<Record>)
    requires AllInsertable(a) && AllInsertable(b) && AllInsertable(a + b) && UniqueIds(a + b)
    ensures IdSet(a) !! IdSet(b)
  {
    var ab := a + b;
    forall x | x in IdSet(a) ensures x !in IdSet(b) {
      var i :| 0 <= i < |a| && IdOf(a[i]) == x;
      forall j | 0 <= j < |b| ensures IdOf(b[j]) != x {
        assert ab[i] == a[i] && ab[|a| + j] == b[j];
      }
    }
  }

  /** A multi-row insert of two lists at once numbers the second after the first. */
  lemma NewRowsAppend(firstId: int, secondId: int, a: seq<Record>, b: seq<Record>)
    requires AllInsertable(a) && AllInsertable(b) && AllInsertable(a + b) && secondId == firstId + |a|
    ensures NewRows(firstId, a + b) == NewRows(firstId, a) + NewRows(secondId, b)
  {
    var ab, lhs, rhs := a + b, NewRows(firstId, a + b), NewRows(firstId, a) + NewRows(secondId, b);
    assert |lhs| == |rhs|;
    forall k | 0 <= k < |ab| ensures lhs[k] == rhs[k] {
      if k < |a| {
        assert ab[k] == a[k] && rhs[k] == NewRows(firstId, a)[k];
      } else {
        assert ab[k] == b[k - |a|] && rhs[k] == NewRows(secondId, b)[k - |a|];
      }
    }
  }

  /** Every key of a committed record is among the keys of the attempted records. */
  lemma CommittedKeysAttempted(batches: seq<Batch>)
    requires AllInsertable(Committed(batches)) && AllInsertable(Attempted(batches))
    ensures IdSet(Committed(batches)) <= IdSet(Attempted(batches))
  {
    CommittedAmongAttempted(batches);
    forall x | x in IdSet(Committed(batches)) ensures x in IdSet(Attempted(batches)) {
      var k :| 0 <= k < |Committed(batches)| && IdOf(Committed(batches)[k]) == x;
      var r := Committed(batches)[k];
      assert r in Attempted(batches);
      var j :| 0 <= j < |Attempted(batches)| && Attempted(batches)[j] == r;
    }
  }

  lemma AttemptedAppend(batches: seq<Batch>, last: Batch)
    ensures Attempted(batches + [last]) == Attempted(batches) + last.records
    ensures last.committed ==> Committed(batches + [last]) == Committed(batches) + last.records
    ensures !last.committed ==> Committed(batches + [last]) == Committed(batches)
  {
    assert (batches + [last])[..|batches|] == batches;
    assert Committed(batches) + [] == Committed(batches);
  }

  /**
   * The commit rule of the loader for a table that held `rows0` when loading began: each batch was
   * committed exactly when its commit succeeded and none of its keys was stored at the start (keys are
   * unique across batches, so earlier batches cannot collide with it).
   */
  ghost predicate CommitRule(rows0: seq<Row>, batches: seq<Batch>, commitOk: nat -> bool) {
    && (forall b :: 0 <= b < |batches| ==> AllInsertable(batches[b].records))
    && (forall b :: 0 <= b < |batches| ==>
          (batches[b].committed <==> commitOk(b) && IdSet(batches[b].records) !! TableIds(rows0)))
  }

  lemma CommitRuleAppend(rows0: seq<Row>, batches: seq<Batch>, commitOk: nat -> bool, pending: seq<Record>,
                         committed: bool)
    requires CommitRule(rows0, batches, commitOk) && AllInsertable(pending)
    requires committed <==> commitOk(|batches|) && IdSet(pending) !! TableIds(rows0)
    ensures CommitRule(rows0, batches + [Batch(pending, committed)], commitOk)
  {
    var nb := batches + [Batch(pending, committed)];
    assert forall b :: 0 <= b < |batches| ==> nb[b] == batches[b];
  }

  /**
   * What the attempted batches have done to a table that held `rows0` when loading began: the commit
   * rule holds, and the committed records were appended in order with consecutive ids.
   */
  ghost predicate Loaded(rows: seq<Row>, nextId: int, rows0: seq<Row>, next0: int, batches: seq<Batch>,
                         commitOk: nat -> bool)
  {
    && ValidRows(rows, nextId) && nextId >= 1
    && CommitRule(rows0, batches, commitOk)
    && AllInsertable(Committed(batches)) && AllInsertable(Attempted(batches))
    && rows == rows0 + NewRows(next0, Committed(batches))
    && nextId == next0 + |Committed(batches)|
    && TableIds(rows) == TableIds(rows0) + IdSet(Committed(batches))
  }

  /** A committed batch extends the table by its records. */
  lemma LoadedAfterCommit(rows: seq<Row>, nextId: int, rows0: seq<Row>, next0: int, batches: seq<Batch>,
                          commitOk: nat -> bool, pending: seq<Record>)
    requires Loaded(rows, nextId, rows0, next0, batches, commitOk)
    requires AllInsertable(pending) && UniqueIds(pending) && IdSet(pending) !! TableIds(rows)
    requires commitOk(|batches|) && IdSet(pending) !! TableIds(rows0)
    ensures Loaded(rows + NewRows(nextId, pending), nextId + |pending|, rows0, next0,
                   batches + [Batch(pending, true)], commitOk)
  {
    var done := Committed(batches);
    AppendKeepsValid(rows, nextId, pending);
    AppendAddsKeys(rows, nextId, pending);
    CommitRuleAppend(rows0, batches, commitOk, pending, true);
    AttemptedAppend(batches, Batch(pending, true));
    IdSetAppend(done, pending);
    IdSetAppend(Attempted(batches), pending);
    RowsAfterCommit(rows, nextId, rows0, next0, done, pending);
  }

  /** Appending a committed batch to a table that extends `rows0` by the earlier records. */
  lemma RowsAfterCommit(rows: seq<Row>, nextId: int, rows0: seq<Row>, next0: int, done: seq<Record>,
                        pending: seq<Record>)
    requires AllInsertable(done) && AllInsertable(pending)
    requires rows == rows0 + NewRows(next0, done) && nextId == next0 + |done|
    ensures AllInsertable(done + pending)
    ensures rows + NewRows(nextId, pending) == rows0 + NewRows(next0, done + pending)
  {
    IdSetAppend(done, pending);
    NewRowsAppend(next0, nextId, done, pending);
    SeqAppendAssoc(rows0, NewRows(next0, done), NewRows(nextId, pending));
  }

  lemma SeqAppendAssoc<T>(a: seq<T>, b: seq<T>, c: seq<T>)
    ensures (a + b) + c == a + (b + c)
  {
  }

  /** A rolled-back batch leaves the table as it was. */
  lemma LoadedAfterRollback(rows: seq<Row>, nextId: int, rows0: seq<Row>, next0: int, batches: seq<Batch>,
                            commitOk: nat -> bool, pending: seq<Record>)
    requires Loaded(rows, nextId, rows0, next0, batches, commitOk)
    requires AllInsertable(pending)
    requires !(commitOk(|batches|) && IdSet(pending) !! TableIds(rows0))
    ensures Loaded(rows, nextId, rows0, next0, batches + [Batch(pending, false)], commitOk)
  {
    CommitRuleAppend(rows0, batches, commitOk, pending, false);
    AttemptedAppend(batches, Batch(pending, false));
    IdSetAppend(Attempted(batches), pending);
  }

  /**
   * One flush of the batch buffer: the multi-row insert and its commit, or the rollback when the commit
   * fails (`commitOk`) or a key is already stored (an integrity error).
   */
  method FlushBatch(t: Table, batches: seq<Batch>, pending: seq<Record>, commitOk: nat -> bool,
                    ghost rows0: seq<Row>, ghost next0: int)
    returns (committed: bool)
    requires Loaded(t.rows, t.nextId, rows0, next0, batches, commitOk)
    requires AllInsertable(pending) && AllInsertable(Attempted(batches) + pending)
    requires UniqueIds(Attempted(batches) + pending)
    modifies t
    ensures committed <==> commitOk(|batches|) && IdSet(pending) !! TableIds(rows0)
    ensures Loaded(t.rows, t.nextId, rows0, next0, batches + [Batch(pending, committed)], commitOk)
  {
    UniqueSplit(Attempted(batches), pending);
    CommittedKeysAttempted(batches);
    assert IdSet(pending) !! TableIds(t.rows) <==> IdSet(pending) !! TableIds(rows0);
    if commitOk(|batches|) && IdSet(pending) !! TableIds(t.rows) {
      LoadedAfterCommit(t.rows, t.nextId, rows0, next0, batches, commitOk, pending);
      t.InsertMany(pending);
      committed := true;
    } else {
      LoadedAfterRollback(t.rows, t.nextId, rows0, next0, batches, commitOk, pending);
      committed := false;
    }
  }

  /**
   * The loader's state against the records `queued` by the scan of the lines read so far: they are those of the attempted batches followed by the buffer, every full batch held 500 records,
   * the buffer is not full, and the counters count the committed and the rolled-back records.
   */
  ghost predicate Progress(rows: seq<Row>, nextId: int, rows0: seq<Row>, next0: int, batches: seq<Batch>,
                           pending: seq<Record>, inserted: nat, errors: nat, commitOk: nat -> bool,
                           queued: seq<Record>)
  {
    && Loaded(rows, nextId, rows0, next0, batches, commitOk)
    && Attempted(batches) + pending == queued
    && AllInsertable(pending) && |pending| < BatchSize
    && (forall b :: 0 <= b < |batches| ==> |batches[b].records| == BatchSize)
    && inserted == |Committed(batches)| && inserted + errors == |Attempted(batches)|
  }

  /** Queueing a record keeps the buffer the tail of the scan's queue. */
  lemma QueueIntoBuffer(batches: seq<Batch>, pending: seq<Record>, rec: Record, queued: seq<Record>)
    requires Attempted(batches) + pending == queued
    requires AllInsertable(queued + [rec]) && UniqueIds(queued + [rec])
    ensures Attempted(batches) + (pending + [rec]) == queued + [rec]
    ensures AllInsertable(pending + [rec])
    ensures AllInsertable(Attempted(batches) + (pending + [rec])) && UniqueIds(Attempted(batches) + (pending + [rec]))
  {
    SeqAppendAssoc(Attempted(batches), pending, [rec]);
    SuffixInsertable(Attempted(batches), pending + [rec]);
  }

  /** The tail of a list of insertable records is insertable. */
  lemma SuffixInsertable(a: seq<Record>, b: seq<Record>)
    requires AllInsertable(a + b)
    ensures AllInsertable(b)
  {
    assert forall k :: 0 <= k < |b| ==> b[k] == (a + b)[|a| + k];
  }

  /** After a full buffer is flushed the buffer is empty and the flushed batch is among the attempted ones. */
  lemma ProgressAfterFlush(rows: seq<Row>, nextId: int, rows0: seq<Row>, next0: int, batches: seq<Batch>,
                           full: seq<Record>, committed: bool, inserted: nat, errors: nat, commitOk: nat -> bool,
                           queued: seq<Record>)
    requires Loaded(rows, nextId, rows0, next0, batches + [Batch(full, committed)], commitOk)
    requires Attempted(batches) + full == queued && |full| == BatchSize
    requires forall b :: 0 <= b < |batches| ==> |batches[b].records| == BatchSize
    requires inserted == |Committed(batches)| + (if committed then |full| else 0)
    requires inserted + errors == |Attempted(batches)| + |full|
    ensures Progress(rows, nextId, rows0, next0, batches + [Batch(full, committed)], [], inserted, errors,
                     commitOk, queued)
  {
    var nb := batches + [Batch(full, committed)];
    AttemptedAppend(batches, Batch(full, committed));
    assert forall b :: 0 <= b < |batches| ==> nb[b] == batches[b];
    assert Attempted(nb) + [] == queued;
  }

  /**
   * Queue the record of a line with a new key and flush the buffer when it reaches 500 records,
   * counting the flushed records as inserted or as errors.
   */
  method QueueRecord(t: Table, batches: seq<Batch>, pending: seq<Record>, inserted: nat, errors: nat,
                     rec: Record, commitOk: nat -> bool,
                     ghost rows0: seq<Row>, ghost next0: int, ghost queued: seq<Record>)
    returns (batches': seq<Batch>, pending': seq<Record>, inserted': nat, errors': nat)
    requires Progress(t.rows, t.nextId, rows0, next0, batches, pending, inserted, errors, commitOk, queued)
    requires AllInsertable(queued + [rec]) && UniqueIds(queued + [rec])
    modifies t
    ensures Progress(t.rows, t.nextId, rows0, next0, batches', pending', inserted', errors', commitOk,
                     queued + [rec])
    ensures |pending| + 1 < BatchSize ==> batches' == batches && pending' == pending + [rec]
    ensures |pending| + 1 == BatchSize ==> pending' == [] && |batches'| == |batches| + 1
  {
    QueueIntoBuffer(batches, pending, rec, queued);
    batches', pending', inserted', errors' := batches, pending + [rec], inserted, errors;
    if |pending'| >= BatchSize {
      var committed := FlushBatch(t, batches, pending', commitOk, rows0, next0);
      if committed {
        inserted' := inserted + |pending'|;
      } else {
        errors' := errors + |pending'|;
      }
      ProgressAfterFlush(t.rows, t.nextId, rows0, next0, batches, pending', committed, inserted', errors',
                         commitOk, queued + [rec]);
      batches', pending' := batches + [Batch(pending', committed)], [];
    }
  }

  /**
   * The loop body of `populate_from_csv` for one line: skip it without a usable natural key, count it
   * as a duplicate when its key was seen, and otherwise queue its record.
   */
  method LoadLine(t: Table, columns: set<string>, row: CsvRow, parseNumber: string -> Option<real>,
                  commitOk: nat -> bool, seen: set<string>, skipped: nat, batches: seq<Batch>,
                  pending: seq<Record>, inserted: nat, errors: nat,
                  ghost rows0: seq<Row>, ghost next0: int, ghost scan: ScanState)
    returns (seen': set<string>, skipped': nat, batches': seq<Batch>, pending': seq<Record>, inserted': nat,
             errors': nat)
    requires ScanInvariant(scan) && seen == scan.seen && skipped == scan.duplicates
    requires Progress(t.rows, t.nextId, rows0, next0, batches, pending, inserted, errors, commitOk, scan.queued)
    modifies t
    ensures var next := ScanLine(columns, scan, row, parseNumber);
      && Progress(t.rows, t.nextId, rows0, next0, batches', pending', inserted', errors', commitOk, next.queued)
      && seen' == next.seen && skipped' == next.duplicates
  {
    ScanLineKeepsInvariant(columns, scan, row, parseNumber);
    seen', skipped', batches', pending', inserted', errors' := seen, skipped, batches, pending, inserted, errors;
    var id := CleanValue(Some(Cell(row, "microbe_id")));
    if id.None? || id.value in seen {
      ScanKeepsQueue(columns, scan, row, parseNumber);
    } else {
      ScanQueuesNew(columns, scan, row, parseNumber);
    }
    if id.Some? {
      if id.value in seen {
        skipped' := skipped + 1;
      } else {
        seen' := seen + {id.value};
        var rec := PrepareRecord(columns, row, id.value, parseNumber);
        batches', pending', inserted', errors' :=
          QueueRecord(t, batches, pending, inserted, errors, rec, commitOk, rows0, next0, scan.queued);
      }
    }
  }

  /** The flush after the loop: the records left in the buffer form the last, partial batch. */
  method FlushRemainder(t: Table, batches: seq<Batch>, pending: seq<Record>, inserted: nat, errors: nat,
                        commitOk: nat -> bool, ghost rows0: seq<Row>, ghost next0: int, ghost queued: seq<Record>)
    returns (batches': seq<Batch>, inserted': nat, errors': nat)
    requires Progress(t.rows, t.nextId, rows0, next0, batches, pending, inserted, errors, commitOk, queued)
    requires AllInsertable(queued) && UniqueIds(queued)
    modifies t
    ensures Loaded(t.rows, t.nextId, rows0, next0, batches', commitOk)
    ensures Attempted(batches') == queued
    ensures inserted' == |Committed(batches')| && inserted' + errors' == |queued|
    ensures forall b :: 0 <= b < |batches'| ==> 1 <= |batches'[b].records| <= BatchSize
    ensures forall b :: 0 <= b < |batches'| - 1 ==> |batches'[b].records| == BatchSize
  {
    batches', inserted', errors' := batches, inserted, errors;
    if pending != [] {
      var committed := FlushBatch(t, batches, pending, commitOk, rows0, next0);
      if committed {
        inserted' := inserted + |pending|;
      } else {
        errors' := errors + |pending|;
      }
      AttemptedAppend(batches, Batch(pending, committed));
      batches' := batches + [Batch(pending, committed)];
      assert forall b :: 0 <= b < |batches| ==> batches'[b] == batches[b];
    } else {
      assert Attempted(batches) == queued;
    }
  }

  /**
   * `populate_from_csv`: scan the lines, skipping those without a usable natural key and counting the
   * duplicates, queue one record per new key, flush the buffer whenever it holds 500 records, and flush
   * the remainder after the loop. A missing or unreadable file (`None`) loads nothing.
   */
  method PopulateFromCsv(t: Table, file: Option<CsvFile>, parseNumber: string -> Option<real>, commitOk: nat -> bool)
    returns (summary: Summary, batches: seq<Batch>)
    requires t.Valid()
    modifies t
    ensures Loaded(t.rows, t.nextId, old(t.rows), old(t.nextId), batches, commitOk)
    ensures t.rows == old(t.rows) + NewRows(old(t.nextId), Committed(batches))
    ensures file.None? ==> summary == Summary(0, 0, 0, 0) && batches == []
    ensures file.Some? ==> var s := Scan(file.value.columns, file.value.rows, parseNumber);
      && Attempted(batches) == s.queued
      && summary.processed == |file.value.rows| && summary.skippedDuplicates == s.duplicates
      && summary.inserted == |Committed(batches)|
      && summary.inserted + summary.insertErrors == |s.queued|
    ensures forall b :: 0 <= b < |batches| ==> 1 <= |batches[b].records| <= BatchSize
    ensures forall b :: 0 <= b < |batches| - 1 ==> |batches[b].records| == BatchSize
  {
    ghost var rows0, next0 := t.rows, t.nextId;
    batches := [];
    ProgressAtStart(t.rows, t.nextId, commitOk);
    if file.None? {
      return Summary(0, 0, 0, 0), batches;
    }
    var seen, skipped, pending, inserted, errors;
    seen, skipped, batches, pending, inserted, errors :=
      LoadLines(t, file.value.columns, file.value.rows, parseNumber, commitOk, rows0, next0);
    ghost var scan := Scan(file.value.columns, file.value.rows, parseNumber);
    batches, inserted, errors := FlushRemainder(t, batches, pending, inserted, errors, commitOk, rows0, next0,
                                                scan.queued);
    summary := Summary(|file.value.rows|, inserted, skipped, errors);
  }

  /** Before the first line nothing is queued, attempted or counted. */
  lemma ProgressAtStart(rows: seq<Row>, nextId: int, commitOk: nat -> bool)
    requires ValidRows(rows, nextId) && nextId >= 1
    ensures Progress(rows, nextId, rows, nextId, [], [], 0, 0, commitOk, [])
  {
    assert rows == rows + NewRows(nextId, []);
  }

  /** The loop of `populate_from_csv` over the lines of the file, one `LoadLine` per line. */
  method LoadLines(t: Table, columns: set<string>, rows: seq<CsvRow>, parseNumber: string -> Option<real>,
                   commitOk: nat -> bool, ghost rows0: seq<Row>, ghost next0: int)
    returns (seen: set<string>, skipped: nat, batches: seq<Batch>, pending: seq<Record>, inserted: nat,
             errors: nat)
    requires Progress(t.rows, t.nextId, rows0, next0, [], [], 0, 0, commitOk, [])
    modifies t
    ensures var s := Scan(columns, rows, parseNumber);
      && Progress(t.rows, t.nextId, rows0, next0, batches, pending, inserted, errors, commitOk, s.queued)
      && seen == s.seen && skipped == s.duplicates && ScanInvariant(s)
  {
    seen, skipped, batches, pending, inserted, errors := {}, 0, [], [], 0, 0;
    ghost var scan := ScanState([], {}, 0);
    for i := 0 to |rows|
      invariant scan == Scan(columns, rows[..i], parseNumber) && ScanInvariant(scan)
      invariant Progress(t.rows, t.nextId, rows0, next0, batches, pending, inserted, errors, commitOk, scan.queued)
      invariant seen == scan.seen && skipped == scan.duplicates
    {
      ScanPrefix(columns, rows, i, parseNumber);
      seen, skipped, batches, pending, inserted, errors :=
        LoadLine(t, columns, rows[i], parseNumber, commitOk, seen, skipped, batches, pending, inserted, errors,
                 rows0, next0, scan);
      ScanLineKeepsInvariant(columns, scan, rows[i], parseNumber);
      scan := ScanLine(columns, scan, rows[i], parseNumber);
    }
    assert rows[..|rows|] == rows;
  }

  /**
   * `init_initial_data`: the CSV population runs only when the table is empty (`None` when it is
   * skipped); with an empty table no key can collide, so each batch is committed exactly when its
   * commit succeeds.
   */
  method InitInitialData(t: Table, file: Option<CsvFile>, parseNumber: string -> Option<real>, commitOk: nat -> bool)
    returns (summary: Option<Summary>, batches: seq<Batch>)
    requires t.Valid()
    modifies t
    ensures t.Valid()
    ensures summary.Some? <==> |old(t.rows)| == 0
    ensures summary.None? ==> t.rows == old(t.rows) && t.nextId == old(t.nextId) && batches == []
    ensures summary.Some? ==> forall b :: 0 <= b < |batches| ==> (batches[b].committed <==> commitOk(b))
    ensures summary.Some? ==> AllInsertable(Committed(batches)) && t.rows == NewRows(old(t.nextId), Committed(batches))
    ensures summary.Some? && file.None? ==> summary.value == Summary(0, 0, 0, 0) && batches == []
    ensures summary.Some? && file.Some? ==> var s := Scan(file.value.columns, file.value.rows, parseNumber);
      && Attempted(batches) == s.queued
      && summary.value.processed == |file.value.rows| && summary.value.skippedDuplicates == s.duplicates
      && summary.value.inserted == |Committed(batches)|
      && summary.value.inserted + summary.value.insertErrors == |s.queued|
    ensures forall b :: 0 <= b < |batches| ==> 1 <= |batches[b].records| <= BatchSize
    ensures forall b :: 0 <= b < |batches| - 1 ==> |batches[b].records| == BatchSize
  {
    if |t.rows| == 0 {
      var s;
      s, batches := PopulateFromCsv(t, file, parseNumber, commitOk);
      summary := Some(s);
    } else {
      summary, batches := None, [];
    }
  }
}
