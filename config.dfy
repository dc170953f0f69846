/**
 * The two settings validators of the backend: `CORS_ORIGINS`, read from a list, a JSON list or a
 * comma-separated string, and `DATABASE_URL`, assembled from the five Postgres settings when it is not
 * given. JSON decoding and Python's `str()` of non-string values are parameters.
 */
module Config {
  import opened Wrappers
  import opened Values
  import opened Text

  /** `str(item)`: a string is its own text; the text of any other value comes from `show`. */
  function PyStr(v: Value, show: Value -> string): string {
    if v.Str? then v.s else show(v)
  }

  /** `[str(item) for item in items]`. */
  function StrItems(items: seq<Value>, show: Value -> string): (r: seq<string>)
    ensures |r| == |items|
  {
    seq(|items|, k requires 0 <= k < |items| => PyStr(items[k], show))
  }

  /** `[origin.strip() for origin in pieces if origin.strip()]`. */
  function StrippedNonEmpty(pieces: seq<string>): (r: seq<string>)
    ensures |r| <= |pieces|
  {
    if pieces == [] then []
    else
      var o := Strip(pieces[0]);
      if o != "" then [o] + StrippedNonEmpty(pieces[1..]) else StrippedNonEmpty(pieces[1..])
  }

  /** A string in brackets that decodes to a JSON list; `decodeJson` is `None` on a decoding error. */
  predicate IsJsonList(s: string, decodeJson: string -> Option<Value>) {
    StartsWith(s, "[") && EndsWith(s, "]") && decodeJson(s).Some? && decodeJson(s).value.Arr?
  }

  /**
   * `assemble_cors_origins`: `None` gives no origins, a list gives its items as text, a blank string
   * gives none, a bracketed JSON list gives its items as text, and any other string is split at commas,
   * each piece stripped and the empty ones dropped. A value of any other type gives no origins.
   */
  function AssembleCorsOrigins(v: Value, show: Value -> string, decodeJson: string -> Option<Value>): (r: seq<string>)
    ensures !v.Arr? && !v.Str? ==> r == []
    ensures v.Arr? ==> r == StrItems(v.items, show)
    ensures v.Str? && Strip(v.s) == "" ==> r == []
    ensures v.Str? && Strip(v.s) != "" && IsJsonList(v.s, decodeJson) ==> r == StrItems(decodeJson(v.s).value.items, show)
  {
    match v
    case Arr(items) => StrItems(items, show)
    case Str(s) =>
      if Strip(s) == "" then []
      else if IsJsonList(s, decodeJson) then StrItems(decodeJson(s).value.items, show)
      else StrippedNonEmpty(Split(s, ','))
    case _ => []
  }

  /** A well-formed origin as the comma-separated form yields it: non-empty, stripped, without commas. */
  predicate CleanOrigin(o: string) {
    o != [] && Strip(o) == o && ',' !in o
  }

  /**
   * A string that is neither blank nor a JSON list yields clean origins: each is non-empty, stripped and
   * free of commas.
   */
  lemma CommaSeparatedOrigins(s: string, show: Value -> string, decodeJson: string -> Option<Value>)
    requires Strip(s) != "" && !IsJsonList(s, decodeJson)
    ensures forall k :: 0 <= k < |AssembleCorsOrigins(Str(s), show, decodeJson)| ==>
              CleanOrigin(AssembleCorsOrigins(Str(s), show, decodeJson)[k])
  {
    StrippedAreClean(Split(s, ','));
  }

  /** Stripping comma-free pieces and dropping the empty ones leaves clean origins. */
  lemma {:induction false} StrippedAreClean(pieces: seq<string>)
    requires forall k :: 0 <= k < |pieces| ==> ',' !in pieces[k]
    ensures forall k :: 0 <= k < |StrippedNonEmpty(pieces)| ==> CleanOrigin(StrippedNonEmpty(pieces)[k])
  {
    if pieces != [] {
      var o := Strip(pieces[0]);
      var rest := StrippedNonEmpty(pieces[1..]);
      StrippedAreClean(pieces[1..]);
      if o != "" {
        StripKeepsOut(pieces[0], ',');
        StripIdempotent(pieces[0]);
        assert CleanOrigin(o);
        assert StrippedNonEmpty(pieces) == [o] + rest;
      } else {
        assert StrippedNonEmpty(pieces) == rest;
      }
    }
  }

  /** Pieces that are already clean come through the strip-and-drop step unchanged. */
  lemma {:induction false} StrippedCleanPieces(pieces: seq<string>)
    requires forall k :: 0 <= k < |pieces| ==> CleanOrigin(pieces[k])
    ensures StrippedNonEmpty(pieces) == pieces
  {
    if pieces != [] {
      StrippedCleanPieces(pieces[1..]);
    }
  }

  /** A string that is neither blank nor a JSON list takes the comma-separated branch. */
  lemma CommaBranch(s: string, show: Value -> string, decodeJson: string -> Option<Value>)
    requires Strip(s) != "" && !StartsWith(s, "[")
    ensures AssembleCorsOrigins(Str(s), show, decodeJson) == StrippedNonEmpty(Split(s, ','))
  {
  }

  /**
   * Origins written comma-separated are read back unchanged, as long as the first does not begin with
   * a bracket.
   */
  lemma CorsRoundTrip(origins: seq<string>, show: Value -> string, decodeJson: string -> Option<Value>)
    requires forall k :: 0 <= k < |origins| ==> CleanOrigin(origins[k])
    requires origins != [] && origins[0] != [] && origins[0][0] != '['
    ensures AssembleCorsOrigins(Str(Join(origins, ",")), show, decodeJson) == origins
  {
    var s := Join(origins, ",");
    JoinedOriginsSplit(origins);
    JoinedOriginsNotBlank(origins);
    CommaBranch(s, show, decodeJson);
    StrippedCleanPieces(origins);
  }

  /** Splitting comma-joined clean origins at commas gives them back. */
  lemma JoinedOriginsSplit(origins: seq<string>)
    requires origins != []
    requires forall k :: 0 <= k < |origins| ==> CleanOrigin(origins[k])
    ensures Split(Join(origins, ","), ',') == origins
  {
    forall k | 0 <= k < |origins| ensures ',' !in origins[k] {
      assert CleanOrigin(origins[k]);
    }
    JoinSplit(origins, ',');
  }

  /** Comma-joined clean origins, the first not starting with a bracket, are neither blank nor bracketed. */
  lemma JoinedOriginsNotBlank(origins: seq<string>)
    requires forall k :: 0 <= k < |origins| ==> CleanOrigin(origins[k])
    requires origins != [] && origins[0] != [] && origins[0][0] != '['
    ensures Strip(Join(origins, ",")) != "" && !StartsWith(Join(origins, ","), "[")
  {
    var s := Join(origins, ",");
    var first := origins[0];
    assert !IsSpace(first[0]) by {
      assert CleanOrigin(first);
      assert Strip(first) == first;
    }
    assert s != [] && s[0] == first[0] by {
      JoinStartsWithFirst(origins, ",");
      assert s[..|first|] == first;
      assert s[..|first|][0] == s[0];
    }
    StripNonEmpty(s);
  }

  /** The validator applied to the list it produced gives that list back. */
  lemma CorsListIsFixedPoint(v: Value, show: Value -> string, decodeJson: string -> Option<Value>)
    ensures var r := AssembleCorsOrigins(v, show, decodeJson);
      AssembleCorsOrigins(Arr(seq(|r|, k requires 0 <= k < |r| => Str(r[k]))), show, decodeJson) == r
  {
  }

  /** Python's `x is None` for a dictionary lookup: the key is missing or holds `None`. */
  predicate IsNone(v: Value) {
    v == Undefined || v == Null
  }

  /** The five settings the connection string is built from, in the order they appear in it. */
  const DbParts: seq<string> := ["POSTGRES_USER", "POSTGRES_PASSWORD", "POSTGRES_SERVER", "POSTGRES_PORT", "POSTGRES_DB"]

  /** `"postgresql+psycopg2://{user}:{password}@{server}:{port}/{db}"`. */
  function DbUrl(user: string, password: string, server: string, port: string, db: string): (url: string)
    ensures StartsWith(url, "postgresql+psycopg2://") && EndsWith(url, "/" + db)
  {
    var url := "postgresql+psycopg2://" + user + ":" + password + "@" + server + ":" + port + "/" + db;
    assert url[..22] == "postgresql+psycopg2://";
    assert url[|url| - |"/" + db|..] == "/" + db;
    url
  }

  /** The five settings are all present and truthy, as `all([...])` requires. */
  predicate AllPartsSet(fields: Record) {
    forall k :: 0 <= k < |DbParts| ==> PyTruthy(Get(fields, DbParts[k]))
  }

  /** The connection string built from the five settings of `fields`. */
  function SettingsUrl(fields: Record, show: Value -> string): string {
    DbUrl(PyStr(Get(fields, "POSTGRES_USER"), show), PyStr(Get(fields, "POSTGRES_PASSWORD"), show),
          PyStr(Get(fields, "POSTGRES_SERVER"), show), PyStr(Get(fields, "POSTGRES_PORT"), show),
          PyStr(Get(fields, "POSTGRES_DB"), show))
  }

  /**
   * `assemble_db_connection_v2`: a settings dictionary without `DATABASE_URL` (or with it `None`) gets
   * one built from the five Postgres settings when all of them are truthy; anything else passes through
   * unchanged.
   */
  function AssembleDbConnection(data: Value, show: Value -> string): (r: Value)
    ensures !data.Obj? ==> r == data
    ensures data.Obj? ==> r.Obj? && data.fields.Keys <= r.fields.Keys <= data.fields.Keys + {"DATABASE_URL"}
    ensures data.Obj? ==> forall k :: k in data.fields && k != "DATABASE_URL" ==> r.fields[k] == data.fields[k]
    ensures data.Obj? ==>
      (IsNone(Get(r.fields, "DATABASE_URL")) <==> IsNone(Get(data.fields, "DATABASE_URL")) && !AllPartsSet(data.fields))
    ensures data.Obj? && !IsNone(Get(data.fields, "DATABASE_URL")) ==> r == data
    ensures data.Obj? && IsNone(Get(data.fields, "DATABASE_URL")) && AllPartsSet(data.fields) ==>
      Get(r.fields, "DATABASE_URL") == Str(SettingsUrl(data.fields, show))
  {
    if data.Obj? && IsNone(Get(data.fields, "DATABASE_URL")) && AllPartsSet(data.fields) then
      Obj(data.fields["DATABASE_URL" := Str(SettingsUrl(data.fields, show))])
    else data
  }

  /** Running the validator on its own output changes nothing more. */
  lemma AssembleDbConnectionIdempotent(data: Value, show: Value -> string)
    ensures AssembleDbConnection(AssembleDbConnection(data, show), show) == AssembleDbConnection(data, show)
  {
  }
}
