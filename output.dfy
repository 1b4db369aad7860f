/**
 * The record writer of modules/writer.py: the destination is chosen once from the
 * output configuration (Google Sheets or Airtable), and each record becomes one
 * new row or one new table record.
 *
 * The spreadsheet and the table are modelled by their contents; authentication and
 * the client libraries are not modelled.
 */
module Output {
  import opened Wrappers
  import opened PyText
  import opened PyDict

  /** One worksheet row. */
  type Row = seq<Value>

  /** The `sheets` section of the output configuration. */
  datatype SheetsConfig = SheetsConfig(
    spreadsheetId: Option<string>,
    credentialsJson: Option<string>,
    headers: Option<seq<string>>)

  /** The `airtable` section of the output configuration. */
  datatype AirtableConfig = AirtableConfig(
    baseId: Option<string>,
    tableName: Option<string>,
    apiKey: Option<string>,
    token: Option<string>)

  /** The output configuration: `type` plus the two optional sections. */
  datatype OutputConfig = OutputConfig(
    kind: Option<string>,
    sheets: Option<SheetsConfig>,
    airtable: Option<AirtableConfig>)

  /** The closed set of destinations a writer can be in. */
  datatype Mode =
    | Sheets(spreadsheetId: string, headers: seq<string>)
    | Airtable(baseId: string, tableName: string, token: string)

  /** What the constructor raises: a `KeyError` on a missing key, or a `ValueError`. */
  datatype ConfigError =
    | MissingKey(key: string)
    | MissingToken
    | UnknownType(kind: string)

  /**
   * `type.split("#", 1)[0].strip()`: an inline comment is cut off and the rest is
   * stripped, so the result has no `#` and no whitespace at either end.
   */
  function NormaliseType(kind: string): (t: string)
    ensures '#' !in t
    ensures t != [] ==> !IsSpace(t[0]) && !IsSpace(t[|t| - 1])
    ensures |t| <= |kind|
  {
    Strip(CutAt(kind, '#'))
  }

  /** Normalising a normalised type changes nothing. */
  lemma NormaliseTypeIdempotent(kind: string)
    ensures NormaliseType(NormaliseType(kind)) == NormaliseType(kind)
  {
    var t := NormaliseType(kind);
    assert CutAt(t, '#') == t;
    StripIdempotent(CutAt(kind, '#'));
  }

  /** Everything from the first separator on is cut. */
  lemma {:induction false} CutBeforeSeparator(s: string, sep: char, rest: string)
    requires sep !in s
    ensures CutAt(s + [sep] + rest, sep) == s
  {
    if s != [] {
      CutBeforeSeparator(s[1..], sep, rest);
      assert (s + [sep] + rest)[1..] == s[1..] + [sep] + rest;
    }
  }

  /** Trailing blanks after a word are stripped. */
  lemma StripTrailingBlanks()
    ensures Strip("sheets  ") == "sheets"
  {
    var t := "sheets  ";
    assert SpaceEnd(t, 0) == 0;
    assert SpaceStart(t, 0, 6) == 6;
    assert SpaceStart(t, 0, 8) == 6 by {
      assert SpaceStart(t, 0, 7) == SpaceStart(t, 0, 6);
    }
  }

  /** `"sheets  # note"` selects the sheets destination. */
  lemma CommentedTypeSelectsSheets()
    ensures NormaliseType("sheets  # note") == "sheets"
  {
    assert CutAt("sheets  # note", '#') == "sheets  " by {
      CutBeforeSeparator("sheets  ", '#', " note");
      assert "sheets  # note" == "sheets  " + ['#'] + " note";
    }
    StripTrailingBlanks();
  }

  /** `api_key or token`: the API key unless it is missing or empty, else the token. */
  function ApiToken(at: AirtableConfig): Option<string>
  {
    if at.apiKey.Some? && at.apiKey.value != "" then at.apiKey else at.token
  }

  /**
   * The configuration checks of `__init__`, in the order the constructor makes them.
   * Only a normalised type of `sheets` or `airtable` yields a mode; Airtable needs a
   * non-empty `api_key` or, failing that, a non-empty `token`.
   */
  function Configure(cfg: OutputConfig): (r: Result<Mode, ConfigError>)
    ensures var t := NormaliseType(cfg.kind.GetOr(""));
      && (t != "sheets" && t != "airtable" ==> r == Err(UnknownType(t)))
      && (r.Ok? && r.value.Sheets? ==> t == "sheets")
      && (r.Ok? && r.value.Airtable? ==> t == "airtable")
      && (t == "sheets" ==> (r.Ok? <==> cfg.sheets.Some? && cfg.sheets.value.spreadsheetId.Some?))
      && (t == "sheets" && r.Ok? ==>
            && r.value.Sheets?
            && r.value.spreadsheetId == cfg.sheets.value.spreadsheetId.value
            && r.value.headers == cfg.sheets.value.headers.GetOr([]))
      && (t == "airtable" ==>
            (r.Ok? <==> && cfg.airtable.Some?
                        && cfg.airtable.value.baseId.Some?
                        && cfg.airtable.value.tableName.Some?
                        && ApiToken(cfg.airtable.value).Some?
                        && ApiToken(cfg.airtable.value).value != ""))
      && ((t == "airtable" && cfg.airtable.Some? && cfg.airtable.value.baseId.Some?
            && cfg.airtable.value.tableName.Some? && r.Err?) ==> r.error == MissingToken)
      && (t == "airtable" && r.Ok? ==>
            && r.value.Airtable?
            && r.value.baseId == cfg.airtable.value.baseId.value
            && r.value.tableName == cfg.airtable.value.tableName.value
            && r.value.token != ""
            && (cfg.airtable.value.apiKey.Some? && cfg.airtable.value.apiKey.value != "" ==>
                  r.value.token == cfg.airtable.value.apiKey.value)
            && (cfg.airtable.value.apiKey.None? || cfg.airtable.value.apiKey.value == "" ==>
                  Some(r.value.token) == cfg.airtable.value.token))
  {
    var t := NormaliseType(cfg.kind.GetOr(""));
    if t == "sheets" then
      if cfg.sheets.None? then Err(MissingKey("sheets"))
      else
        var ss := cfg.sheets.value;
        if ss.spreadsheetId.None? then Err(MissingKey("spreadsheet_id"))
        else Ok(Sheets(ss.spreadsheetId.value, ss.headers.GetOr([])))
    else if t == "airtable" then
      if cfg.airtable.None? then Err(MissingKey("airtable"))
      else
        var at := cfg.airtable.value;
        if at.baseId.None? then Err(MissingKey("base_id"))
        else if at.tableName.None? then Err(MissingKey("table_name"))
        else
          var token := ApiToken(at);
          if token.None? || token.value == "" then Err(MissingToken)
          else Ok(Airtable(at.baseId.value, at.tableName.value, token.value))
    else
      Err(UnknownType(t))
  }

  /** A missing `type` normalises to `""`, which no destination accepts. */
  lemma MissingTypeRejected(cfg: OutputConfig)
    requires cfg.kind.None?
    ensures Configure(cfg) == Err(UnknownType(""))
  {
    assert CutAt("", '#') == "";
  }

  /** The header names as a row. */
  function HeaderRow(headers: seq<string>): (row: Row)
    ensures |row| == |headers|
  {
    seq(|headers|, i requires 0 <= i < |headers| => Str(headers[i]))
  }

  /** `row_values(1)`, with a failed read counting as `[]`. */
  function FirstRow(rows: seq<Row>, readable: bool): Row {
    if readable && rows != [] then rows[0] else []
  }

  /** The worksheet after construction: the header row goes on top unless it is already there. */
  function InitialRows(headers: seq<string>, rows: seq<Row>, readable: bool): seq<Row>
  {
    if headers != [] && FirstRow(rows, readable) != HeaderRow(headers) then [HeaderRow(headers)] + rows
    else rows
  }

  /**
   * With a readable first row the header row is inserted at most once: a sheet that
   * already starts with it is left alone, so constructing a writer again adds nothing.
   * With headers configured the sheet then starts with the header row.
   */
  lemma HeaderInsertedOnce(headers: seq<string>, rows: seq<Row>)
    ensures InitialRows(headers, InitialRows(headers, rows, true), true) == InitialRows(headers, rows, true)
    ensures headers != [] ==> FirstRow(InitialRows(headers, rows, true), true) == HeaderRow(headers)
    ensures headers == [] ==> InitialRows(headers, rows, true) == rows
  {
  }

  /** An unreadable first row makes every construction insert the header row again. */
  lemma UnreadableFirstRowRepeatsHeader(headers: seq<string>, rows: seq<Row>)
    requires headers != []
    ensures InitialRows(headers, InitialRows(headers, rows, false), false)
         == [HeaderRow(headers), HeaderRow(headers)] + rows
  {
    assert HeaderRow(headers) != [];
  }

  /** `[record.get(col, '') for col in headers]`. */
  function Project(record: Record, headers: seq<string>): Row
  {
    seq(|headers|, i requires 0 <= i < |headers| => GetOr(record, headers[i], Str("")))
  }

  /**
   * The projected row has one cell per header: the record's value for that column,
   * or `''` when the record lacks it. Fields that are not headers have no influence.
   */
  lemma ProjectColumns(record: Record, other: Record, headers: seq<string>)
    requires forall h :: h in headers ==> Get(record, h) == Get(other, h)
    ensures |Project(record, headers)| == |headers|
    ensures forall i :: 0 <= i < |headers| && headers[i] !in record.items ==>
      Project(record, headers)[i] == Str("")
    ensures forall i :: 0 <= i < |headers| && headers[i] in record.items ==>
      Project(record, headers)[i] == record.items[headers[i]]
    ensures Project(record, headers) == Project(other, headers)
  {
    forall i | 0 <= i < |headers| ensures Project(record, headers)[i] == Project(other, headers)[i] {
      assert Get(record, headers[i]) == Get(other, headers[i]);
    }
  }

  /** Projecting a record onto its own keys gives its values in insertion order. */
  lemma ProjectOwnKeys(record: Record)
    requires record.Valid()
    ensures Project(record, record.keys) == Values(record)
  {
  }

  /** The row `append_record` writes in sheets mode: by header order, else by insertion order. */
  function RowFor(headers: seq<string>, record: Record): Row
    requires record.Valid()
  {
    if headers != [] then Project(record, headers) else Values(record)
  }

  /** The rows written for a sequence of records. */
  function RowsFor(headers: seq<string>, records: seq<Record>): seq<Row>
    requires forall r :: r in records ==> r.Valid()
  {
    seq(|records|, i requires 0 <= i < |records| => RowFor(headers, records[i]))
  }

  class Writer {
    const mode: Mode
    /** The worksheet `Sheet1` (sheets mode). */
    var rows: seq<Row>
    /** The Airtable table (airtable mode). */
    var table: seq<Record>
    /** Every record appended so far, in order. */
    ghost var Appended: seq<Record>
    /** The worksheet and the table as construction left them. */
    ghost const baseRows: seq<Row>
    ghost const baseTable: seq<Record>

    /** The destination holds what construction left, then one entry per appended record. */
    ghost predicate Valid()
      reads this
    {
      && (forall r :: r in Appended ==> r.Valid())
      && (mode.Sheets? ==> rows == baseRows + RowsFor(mode.headers, Appended))
      && (mode.Airtable? ==> table == baseTable + Appended)
    }

    /**
     * The part of `__init__` after the configuration checks: in sheets mode the header
     * row is inserted at the top when headers are configured and the first row differs.
     */
    constructor(mode: Mode, sheet: seq<Row>, firstRowReadable: bool, table: seq<Record>)
      ensures Valid() && this.mode == mode && Appended == []
      ensures mode.Sheets? ==> rows == InitialRows(mode.headers, sheet, firstRowReadable)
      ensures this.table == table
    {
      this.mode := mode;
      var initial := if mode.Sheets? then InitialRows(mode.headers, sheet, firstRowReadable) else sheet;
      rows := initial;
      baseRows := initial;
      this.table := table;
      baseTable := table;
      Appended := [];
    }

    /** `append_record`: exactly one new row (or table record) at the end; earlier ones stay. */
    method AppendRecord(record: Record)
      requires Valid() && record.Valid()
      modifies this
      ensures Valid() && Appended == old(Appended) + [record]
      ensures mode.Sheets? ==> rows == old(rows) + [RowFor(mode.headers, record)] && table == old(table)
      ensures mode.Airtable? ==> table == old(table) + [record] && rows == old(rows)
    {
      Appended := Appended + [record];
      match mode
      case Sheets(_, headers) =>
        var row := if headers != [] then Project(record, headers) else Values(record);
        rows := rows + [row];
        assert RowsFor(headers, Appended) == RowsFor(headers, old(Appended)) + [row];
      case Airtable(_, _, _) =>
        table := table + [record];
    }
  }

  /** `Writer(config)`: raises on a bad configuration, otherwise opens the destination. */
  method OpenWriter(cfg: OutputConfig, sheet: seq<Row>, firstRowReadable: bool, table: seq<Record>)
    returns (r: Result<Writer, ConfigError>)
    ensures r.Err? <==> Configure(cfg).Err?
    ensures r.Err? ==> r.error == Configure(cfg).error
    ensures r.Ok? ==> fresh(r.value) && r.value.Valid()
    ensures r.Ok? ==> r.value.mode == Configure(cfg).value && r.value.Appended == []
    ensures r.Ok? && r.value.mode.Sheets? ==>
      r.value.rows == InitialRows(r.value.mode.headers, sheet, firstRowReadable)
    ensures r.Ok? ==> r.value.table == table
  {
    var mode := Configure(cfg);
    if mode.Err? {
      return Err(mode.error);
    }
    var w := new Writer(mode.value, sheet, firstRowReadable, table);
    return Ok(w);
  }

  /** Without headers, `{'A': 1, 'B': 2, 'C': 3}` is written as the row `[1, 2, 3]`. */
  method InsertionOrderRowScenario() returns (rows: seq<Row>)
    ensures rows == [[Int(1), Int(2), Int(3)]]
  {
    var record := Dict(["A", "B", "C"], map["A" := Int(1), "B" := Int(2), "C" := Int(3)]);
    assert record.Valid();
    assert Values(record) == [Int(1), Int(2), Int(3)];
    var w := new Writer(Sheets("sheet123", []), [], true, []);
    w.AppendRecord(record);
    rows := w.rows;
  }
}
