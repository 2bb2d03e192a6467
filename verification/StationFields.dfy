/** What the cells of an operator's row become: the import, field by field, in terms of header and row. */
module StationFields {
  import opened Text
  import opened StationStatuses
  import opened StationImport
  import Csv = CsvRows
  import opened FilterLists

  // ----- cells -----

  /** Column j is the last one that the header gives this name. */
  predicate IsColumn(js: Js, header: seq<string>, column: string, j: nat) {
    && j < |header| && js.toLower(Trim(js.isSpace, header[j])) == column
    && forall k :: j < k < |header| ==> js.toLower(Trim(js.isSpace, header[k])) != column
  }

  ghost predicate HasColumn(js: Js, header: seq<string>, column: string) {
    exists j: nat :: IsColumn(js, header, column, j)
  }

  lemma {:induction false} HeaderMapMeaning(js: Js, header: seq<string>, column: string)
    ensures column in HeaderMap(js, header) <==> HasColumn(js, header, column)
    ensures forall j: nat :: IsColumn(js, header, column, j) ==>
      column in HeaderMap(js, header) && HeaderMap(js, header)[column] == j
  {
    if header != [] {
      var last := |header| - 1;
      var front := header[..last];
      HeaderMapMeaning(js, front, column);
      if js.toLower(Trim(js.isSpace, header[last])) == column {
        assert IsColumn(js, header, column, last);
      } else {
        forall j: nat ensures IsColumn(js, header, column, j) <==> IsColumn(js, front, column, j) {
          if IsColumn(js, front, column, j) {
            assert header[j] == front[j];
          }
        }
        if HasColumn(js, front, column) {
          var j: nat :| IsColumn(js, front, column, j);
          assert IsColumn(js, header, column, j);
        }
      }
    }
  }

  /** The row has this text, trimmed and not empty, in the column. */
  ghost predicate CellSays(js: Js, header: seq<string>, row: seq<string>, column: string, text: string) {
    text != "" && exists j: nat :: IsColumn(js, header, column, j) && j < |row| && Trim(js.isSpace, row[j]) == text
  }

  ghost predicate CellIsEmpty(js: Js, header: seq<string>, row: seq<string>, column: string) {
    forall j: nat :: IsColumn(js, header, column, j) && j < |row| ==> Trim(js.isSpace, row[j]) == ""
  }

  lemma ReadOptionalMeaning(js: Js, header: seq<string>, row: seq<string>, column: string)
    ensures var value := ReadOptional(js, row, HeaderMap(js, header), column);
      && (value == None <==> CellIsEmpty(js, header, row, column))
      && forall text :: value == Some(text) <==> CellSays(js, header, row, column, text)
  {
    HeaderMapMeaning(js, header, column);
    if HasColumn(js, header, column) {
      var j: nat :| IsColumn(js, header, column, j);
      assert forall k: nat :: IsColumn(js, header, column, k) ==> k == j;
    }
  }

  // ----- what texts mean -----

  ghost predicate NumberCell(js: Js, header: seq<string>, row: seq<string>, column: string, x: real) {
    exists text :: CellSays(js, header, row, column, text) && js.toNumber(text) == Some(x)
  }

  predicate NamesStatus(name: string, status: Status) {
    match status
    case OCCUPIED => name == "OCCUPIED"
    case OFFLINE => name == "OFFLINE"
    case MAINTENANCE => name == "MAINTENANCE"
    case AVAILABLE => name != "OCCUPIED" && name != "OFFLINE" && name != "MAINTENANCE"
  }

  /** An empty cell and an unknown name are AVAILABLE. */
  ghost predicate StatusCell(js: Js, header: seq<string>, row: seq<string>, column: string, status: Status) {
    || (CellIsEmpty(js, header, row, column) && status == AVAILABLE)
    || exists text :: CellSays(js, header, row, column, text) && NamesStatus(js.toUpper(text), status)
  }

  /** An unknown name is CCS. */
  predicate NamesType(name: string, t: ConnectorType) {
    match t
    case TYPE_1 => name == "TYPE_1" || name == "TYPE 1"
    case TYPE_2 => name == "TYPE_2" || name == "TYPE 2"
    case CHADEMO => name == "CHADEMO"
    case TESLA => name == "TESLA"
    case GBT => name == "GBT" || name == "GB/T"
    case CCS => name !in {"TYPE_1", "TYPE 1", "TYPE_2", "TYPE 2", "CHADEMO", "TESLA", "GBT", "GB/T"}
  }

  ghost predicate TypeCell(js: Js, header: seq<string>, row: seq<string>, column: string, t: ConnectorType) {
    exists text :: CellSays(js, header, row, column, text) && NamesType(js.toUpper(text), t)
  }

  ghost predicate OptionalCell(js: Js, header: seq<string>, row: seq<string>, column: string, value: Option<string>) {
    match value
    case Some(text) => CellSays(js, header, row, column, text)
    case None => CellIsEmpty(js, header, row, column)
  }

  /** The trimmed pieces between bars, without the empty ones. */
  ghost predicate AmenitiesCell(js: Js, header: seq<string>, row: seq<string>, column: string, list: seq<string>) {
    || (CellIsEmpty(js, header, row, column) && list == [])
    || exists text | CellSays(js, header, row, column, text) ::
         list == Filter(TrimAll(js.isSpace, Split(text, '|')), NotEmpty())
  }

  /** The station and the connector that a row spells out. */
  ghost predicate RowSays(js: Js, header: seq<string>, row: seq<string>, d: Draft) {
    && CellSays(js, header, row, "external_id", d.station.externalId)
    && CellSays(js, header, row, "operator_id", d.station.operatorId)
    && CellSays(js, header, row, "operator_name", d.station.operatorName)
    && CellSays(js, header, row, "name", d.station.name)
    && CellSays(js, header, row, "address", d.station.address)
    && CellSays(js, header, row, "city", d.station.city)
    && NumberCell(js, header, row, "latitude", d.station.latitude)
    && NumberCell(js, header, row, "longitude", d.station.longitude)
    && StatusCell(js, header, row, "status", d.station.status)
    && OptionalCell(js, header, row, "opening_hours", d.station.openingHours)
    && AmenitiesCell(js, header, row, "amenities", d.station.amenities)
    && ConnectorSays(js, header, row, d.connector)
  }

  ghost predicate ConnectorSays(js: Js, header: seq<string>, row: seq<string>, c: Connector) {
    && CellSays(js, header, row, "evse_id", c.evseId)
    && TypeCell(js, header, row, "connector_type", c.connectorType)
    && NumberCell(js, header, row, "power_kw", c.powerKw)
    && StatusCell(js, header, row, "connector_status", c.status)
  }

  // ----- the readers -----

  lemma RequiredMeaning(js: Js, header: seq<string>, row: seq<string>, column: string, line: nat, text: string)
    ensures ReadRequired(js, row, HeaderMap(js, header), column, line) == Ok(text)
       <==> CellSays(js, header, row, column, text)
  {
    ReadOptionalMeaning(js, header, row, column);
  }

  lemma NumberMeaning(js: Js, header: seq<string>, row: seq<string>, column: string, line: nat, x: real)
    ensures ReadNumber(js, row, HeaderMap(js, header), column, line) == Ok(x)
       <==> NumberCell(js, header, row, column, x)
  {
    ReadOptionalMeaning(js, header, row, column);
    var value := ReadOptional(js, row, HeaderMap(js, header), column);
    if value.Some? {
      assert CellSays(js, header, row, column, value.value);
    }
  }

  lemma StatusMeaning(js: Js, header: seq<string>, row: seq<string>, column: string, status: Status)
    ensures ParseStatus(js, ReadOptional(js, row, HeaderMap(js, header), column)) == status
       <==> StatusCell(js, header, row, column, status)
  {
    ReadOptionalMeaning(js, header, row, column);
    var value := ReadOptional(js, row, HeaderMap(js, header), column);
    if value.Some? {
      assert CellSays(js, header, row, column, value.value);
      TrimIsIdentity(js.isSpace, value.value);
    }
  }

  lemma OptionalMeaning(js: Js, header: seq<string>, row: seq<string>, column: string, value: Option<string>)
    ensures ReadOptional(js, row, HeaderMap(js, header), column) == value
       <==> OptionalCell(js, header, row, column, value)
  {
    ReadOptionalMeaning(js, header, row, column);
  }

  lemma TypeMeaning(js: Js, text: string, t: ConnectorType)
    requires Trimmed(js.isSpace, text)
    ensures ParseConnectorType(js, text) == t <==> NamesType(js.toUpper(text), t)
  {
    TrimIsIdentity(js.isSpace, text);
  }

  lemma {:induction false} NonEmptyTrimmedMeaning(js: Js, parts: seq<string>)
    ensures NonEmptyTrimmed(js, parts) == Filter(TrimAll(js.isSpace, parts), NotEmpty())
  {
    if parts != [] {
      NonEmptyTrimmedMeaning(js, parts[1..]);
      assert TrimAll(js.isSpace, parts)[1..] == TrimAll(js.isSpace, parts[1..]);
    }
  }

  lemma AmenitiesMeaning(js: Js, header: seq<string>, row: seq<string>, column: string, list: seq<string>)
    ensures ParseAmenities(js, ReadOptional(js, row, HeaderMap(js, header), column)) == list
       <==> AmenitiesCell(js, header, row, column, list)
  {
    ReadOptionalMeaning(js, header, row, column);
    var value := ReadOptional(js, row, HeaderMap(js, header), column);
    if value.Some? {
      assert CellSays(js, header, row, column, value.value);
      NonEmptyTrimmedMeaning(js, Split(value.value, '|'));
    }
  }

  lemma TypeCellMeaning(js: Js, header: seq<string>, row: seq<string>, column: string, line: nat, t: ConnectorType)
    ensures var text := ReadRequired(js, row, HeaderMap(js, header), column, line);
      text.Ok? && ParseConnectorType(js, text.value) == t <==> TypeCell(js, header, row, column, t)
  {
    ReadOptionalMeaning(js, header, row, column);
    var value := ReadOptional(js, row, HeaderMap(js, header), column);
    if value.Some? {
      assert CellSays(js, header, row, column, value.value);
      TypeMeaning(js, value.value, t);
    }
  }

  lemma ConnectorFields(js: Js, row: seq<string>, headers: Headers, line: nat, c: Connector)
    ensures ParseConnector(js, row, headers, line) == Ok(c) <==>
      && ReadRequired(js, row, headers, "evse_id", line) == Ok(c.evseId)
      && (var text := ReadRequired(js, row, headers, "connector_type", line);
          text.Ok? && ParseConnectorType(js, text.value) == c.connectorType)
      && ReadNumber(js, row, headers, "power_kw", line) == Ok(c.powerKw)
      && ParseStatus(js, ReadOptional(js, row, headers, "connector_status")) == c.status
  {}

  lemma ConnectorMeaning(js: Js, header: seq<string>, row: seq<string>, line: nat, c: Connector)
    ensures ParseConnector(js, row, HeaderMap(js, header), line) == Ok(c) <==> ConnectorSays(js, header, row, c)
  {
    ConnectorFields(js, row, HeaderMap(js, header), line, c);
    RequiredMeaning(js, header, row, "evse_id", line, c.evseId);
    TypeCellMeaning(js, header, row, "connector_type", line, c.connectorType);
    NumberMeaning(js, header, row, "power_kw", line, c.powerKw);
    StatusMeaning(js, header, row, "connector_status", c.status);
  }

  lemma DraftFields(js: Js, row: seq<string>, headers: Headers, line: nat, d: Draft)
    ensures ParseDraft(js, row, headers, line) == Ok(d) <==>
      && ReadRequired(js, row, headers, "external_id", line) == Ok(d.station.externalId)
      && ReadRequired(js, row, headers, "operator_id", line) == Ok(d.station.operatorId)
      && ReadRequired(js, row, headers, "operator_name", line) == Ok(d.station.operatorName)
      && ReadRequired(js, row, headers, "name", line) == Ok(d.station.name)
      && ReadRequired(js, row, headers, "address", line) == Ok(d.station.address)
      && ReadRequired(js, row, headers, "city", line) == Ok(d.station.city)
      && ReadNumber(js, row, headers, "latitude", line) == Ok(d.station.latitude)
      && ReadNumber(js, row, headers, "longitude", line) == Ok(d.station.longitude)
      && ParseStatus(js, ReadOptional(js, row, headers, "status")) == d.station.status
      && ReadOptional(js, row, headers, "opening_hours") == d.station.openingHours
      && ParseAmenities(js, ReadOptional(js, row, headers, "amenities")) == d.station.amenities
      && ParseConnector(js, row, headers, line) == Ok(d.connector)
  {}

  /** Main result: a row is read as a draft exactly when it spells that draft out: every field stands in the
      column of its own name, numbers as their values, types and states by their names. */
  lemma DraftIsWhatRowSays(js: Js, header: seq<string>, row: seq<string>, line: nat, d: Draft)
    ensures ParseDraft(js, row, HeaderMap(js, header), line) == Ok(d) <==> RowSays(js, header, row, d)
  {
    DraftFields(js, row, HeaderMap(js, header), line, d);
    RequiredMeaning(js, header, row, "external_id", line, d.station.externalId);
    RequiredMeaning(js, header, row, "operator_id", line, d.station.operatorId);
    RequiredMeaning(js, header, row, "operator_name", line, d.station.operatorName);
    RequiredMeaning(js, header, row, "name", line, d.station.name);
    RequiredMeaning(js, header, row, "address", line, d.station.address);
    RequiredMeaning(js, header, row, "city", line, d.station.city);
    NumberMeaning(js, header, row, "latitude", line, d.station.latitude);
    NumberMeaning(js, header, row, "longitude", line, d.station.longitude);
    StatusMeaning(js, header, row, "status", d.station.status);
    OptionalMeaning(js, header, row, "opening_hours", d.station.openingHours);
    AmenitiesMeaning(js, header, row, "amenities", d.station.amenities);
    ConnectorMeaning(js, header, row, line, d.connector);
  }

  // ----- errors -----

  /** What is wrong with a row's cell in a required column. */
  ghost predicate CellFails(js: Js, header: seq<string>, row: seq<string>, column: string, line: nat,
                            error: ImportError)
  {
    if CellIsEmpty(js, header, row, column) then error == MissingValue(column, line)
    else
      && column in {"latitude", "longitude", "power_kw"} && error == InvalidNumber(column, line)
      && forall x :: !NumberCell(js, header, row, column, x)
  }

  /** The columns in the order in which they are read. */
  const READ_ORDER := ["external_id", "operator_id", "operator_name", "name", "address", "city", "latitude",
                       "longitude", "evse_id", "connector_type", "power_kw"]

  ghost predicate FailsAt(js: Js, header: seq<string>, row: seq<string>, line: nat, k: nat, error: ImportError) {
    && k < |READ_ORDER| && CellFails(js, header, row, READ_ORDER[k], line, error)
    && forall j, e :: 0 <= j < k ==> !CellFails(js, header, row, READ_ORDER[j], line, e)
  }

  lemma RequiredFails(js: Js, header: seq<string>, row: seq<string>, column: string, line: nat, e: ImportError)
    requires column !in {"latitude", "longitude", "power_kw"}
    ensures ReadRequired(js, row, HeaderMap(js, header), column, line) == Err(e)
       <==> CellFails(js, header, row, column, line, e)
  {
    ReadOptionalMeaning(js, header, row, column);
  }

  lemma NumberFails(js: Js, header: seq<string>, row: seq<string>, column: string, line: nat, e: ImportError)
    requires column in {"latitude", "longitude", "power_kw"}
    ensures ReadNumber(js, row, HeaderMap(js, header), column, line) == Err(e)
       <==> CellFails(js, header, row, column, line, e)
  {
    ReadOptionalMeaning(js, header, row, column);
    var number := ReadNumber(js, row, HeaderMap(js, header), column, line);
    if number.Ok? {
      NumberMeaning(js, header, row, column, line, number.value);
    } else {
      forall x ensures !NumberCell(js, header, row, column, x) {
        NumberMeaning(js, header, row, column, line, x);
      }
    }
  }

  /** What the reader of the k-th column in that order makes of the row: nothing, or an error. */
  function ErrorAt(js: Js, headers: Headers, row: seq<string>, line: nat, k: nat): Option<ImportError>
    requires k < |READ_ORDER|
  {
    if k == 6 || k == 7 || k == 10 then
      match ReadNumber(js, row, headers, READ_ORDER[k], line) case Ok(_) => None case Err(e) => Some(e)
    else
      match ReadRequired(js, row, headers, READ_ORDER[k], line) case Ok(_) => None case Err(e) => Some(e)
  }

  lemma ErrorAtMeaning(js: Js, header: seq<string>, row: seq<string>, line: nat, k: nat, e: ImportError)
    requires k < |READ_ORDER|
    ensures ErrorAt(js, HeaderMap(js, header), row, line, k) == Some(e)
       <==> CellFails(js, header, row, READ_ORDER[k], line, e)
  {
    if k == 6 || k == 7 || k == 10 {
      NumberFails(js, header, row, READ_ORDER[k], line, e);
    } else {
      RequiredFails(js, header, row, READ_ORDER[k], line, e);
    }
  }

  lemma FirstErrorIsReported(js: Js, headers: Headers, row: seq<string>, line: nat, k: nat, error: ImportError)
    requires k < |READ_ORDER| && ErrorAt(js, headers, row, line, k) == Some(error)
    requires forall j: nat :: j < k ==> ErrorAt(js, headers, row, line, j) == None
    ensures ParseDraft(js, row, headers, line) == Err(error)
  {
    assert k > 0 ==> ErrorAt(js, headers, row, line, 0) == None;
    assert k > 1 ==> ErrorAt(js, headers, row, line, 1) == None;
    assert k > 2 ==> ErrorAt(js, headers, row, line, 2) == None;
    assert k > 3 ==> ErrorAt(js, headers, row, line, 3) == None;
    assert k > 4 ==> ErrorAt(js, headers, row, line, 4) == None;
    assert k > 5 ==> ErrorAt(js, headers, row, line, 5) == None;
    assert k > 6 ==> ErrorAt(js, headers, row, line, 6) == None;
    assert k > 7 ==> ErrorAt(js, headers, row, line, 7) == None;
    assert k > 8 ==> ErrorAt(js, headers, row, line, 8) == None;
    assert k > 9 ==> ErrorAt(js, headers, row, line, 9) == None;
  }

  /** A row that cannot be read reports the first column, in reading order, that is empty or not a number. */
  lemma FirstBadCellIsReported(js: Js, header: seq<string>, row: seq<string>, line: nat, k: nat, error: ImportError)
    requires FailsAt(js, header, row, line, k, error)
    ensures ParseDraft(js, row, HeaderMap(js, header), line) == Err(error)
  {
    forall j: nat | j <= k
      ensures if j == k then ErrorAt(js, HeaderMap(js, header), row, line, j) == Some(error)
              else ErrorAt(js, HeaderMap(js, header), row, line, j) == None
    {
      var found := ErrorAt(js, HeaderMap(js, header), row, line, j);
      ErrorAtMeaning(js, header, row, line, j, if j < k && found.Some? then found.value else error);
    }
    FirstErrorIsReported(js, HeaderMap(js, header), row, line, k, error);
  }

  // ----- the whole import -----

  predicate IsRequired(column: string) {
    || column == "external_id" || column == "operator_id" || column == "operator_name" || column == "name"
    || column == "address" || column == "city" || column == "latitude" || column == "longitude"
    || column == "evse_id" || column == "connector_type" || column == "power_kw"
  }

  lemma {:induction false} MissingColumnsMeaning(headers: Headers, columns: seq<string>)
    ensures forall c :: c in MissingColumnsOf(headers, columns) <==> c in columns && c !in headers
  {
    if columns != [] {
      MissingColumnsMeaning(headers, columns[1..]);
      assert columns == [columns[0]] + columns[1..];
    }
  }

  lemma RequiredColumnsAre(column: string)
    ensures column in REQUIRED_COLUMNS <==> IsRequired(column)
  {
    assert REQUIRED_COLUMNS[0] == "external_id" && REQUIRED_COLUMNS[1] == "operator_id";
    assert REQUIRED_COLUMNS[2] == "operator_name" && REQUIRED_COLUMNS[3] == "name" && REQUIRED_COLUMNS[4] == "address";
    assert REQUIRED_COLUMNS[5] == "city" && REQUIRED_COLUMNS[6] == "latitude" && REQUIRED_COLUMNS[7] == "longitude";
    assert REQUIRED_COLUMNS[8] == "evse_id" && REQUIRED_COLUMNS[9] == "connector_type";
    assert REQUIRED_COLUMNS[10] == "power_kw";
  }

  /** An import complains of columns exactly when a required one is missing, and names all of those. */
  lemma MissingColumnsAreNamed(js: Js, header: seq<string>, rows: seq<seq<string>>, end: Csv.Terminator)
    requires header != [] && forall k :: 0 <= k < |rows| ==> rows[k] != []
    ensures var result := Import(js, Csv.PrintLines(Csv.QuoteWhereNeeded([header] + rows, end)));
      && ((exists c :: IsRequired(c) && !HasColumn(js, header, c)) <==> result.Err? && result.error.MissingColumns?)
      && (result.Err? && result.error.MissingColumns? ==>
           forall c :: c in result.error.columns <==> IsRequired(c) && !HasColumn(js, header, c))
  {
    var content := Csv.PrintLines(Csv.QuoteWhereNeeded([header] + rows, end));
    var headers := HeaderMap(js, header);
    var missing := MissingColumnsOf(headers, REQUIRED_COLUMNS);
    Csv.EveryTableSurvives([header] + rows, end);
    MissingColumnsMeaning(headers, REQUIRED_COLUMNS);
    forall c ensures c in missing <==> IsRequired(c) && !HasColumn(js, header, c) {
      RequiredColumnsAre(c);
      HeaderMapMeaning(js, header, c);
    }
    if missing == [] {
      RowErrorsAreNotColumns(js, rows, headers);
      assert ([header] + rows)[1..] == rows;
    } else {
      assert missing[0] in missing;
    }
  }

  lemma RowErrorIsNotColumns(js: Js, row: seq<string>, headers: Headers, line: nat)
    ensures var draft := ParseDraft(js, row, headers, line); draft.Err? ==> !draft.error.MissingColumns?
  {}

  lemma RowErrorsAreNotColumns(js: Js, rows: seq<seq<string>>, headers: Headers)
    ensures var parsed := ParseDrafts(js, rows, headers); parsed.Err? ==> !parsed.error.MissingColumns?
  {
    DraftsAreTheNonBlankRows(js, rows, headers);
    var kept, parsed := NonBlank(js, rows), ParseDrafts(js, rows, headers);
    if parsed.Err? {
      var k: nat :| FailsFirst(ReadKept(js, kept, headers), k, parsed.error);
      RowErrorIsNotColumns(js, kept[k].0, headers, kept[k].1);
    }
  }

  /** The rows that count are those with some cell that is more than white space, with their line numbers. */
  lemma {:induction false} RowsThatCount(js: Js, rows: seq<seq<string>>)
    ensures forall row, line :: (row, line) in NonBlank(js, rows) <==>
      2 <= line < |rows| + 2 && row == rows[line - 2] && exists cell :: cell in row && Trim(js.isSpace, cell) != ""
  {
    if rows != [] {
      var last := |rows| - 1;
      RowsThatCount(js, rows[..last]);
      assert IsEmptyRow(js, rows[last]) <==> forall cell :: cell in rows[last] ==> Trim(js.isSpace, cell) == "";
    }
  }

  lemma SpeakingRowIsNotBlank(js: Js, header: seq<string>, row: seq<string>, d: Draft)
    requires RowSays(js, header, row, d)
    ensures !IsEmptyRow(js, row)
  {
    assert CellSays(js, header, row, "external_id", d.station.externalId);
  }

  lemma {:induction false} NoRowIsBlank(js: Js, rows: seq<seq<string>>)
    requires forall k :: 0 <= k < |rows| ==> !IsEmptyRow(js, rows[k])
    ensures |NonBlank(js, rows)| == |rows|
    ensures forall k :: 0 <= k < |rows| ==> NonBlank(js, rows)[k] == (rows[k], k + 2)
  {
    if rows != [] {
      NoRowIsBlank(js, rows[..|rows| - 1]);
    }
  }

  lemma SpeakingRowIsRead(js: Js, header: seq<string>, kept: seq<(seq<string>, nat)>, k: nat, d: Draft)
    requires k < |kept| && RowSays(js, header, kept[k].0, d)
    ensures ReadKept(js, kept, HeaderMap(js, header))[k] == Ok(d)
  {
    DraftIsWhatRowSays(js, header, kept[k].0, kept[k].1, d);
  }

  lemma OneOutcome(read: seq<Result<Draft>>, outcome: Result<seq<Draft>>, drafts: seq<Draft>)
    requires Corresponds(read, outcome) && |drafts| == |read|
    requires forall k :: 0 <= k < |read| ==> read[k] == Ok(drafts[k])
    ensures outcome == Ok(drafts)
  {
    if outcome.Ok? {
      assert outcome.value == drafts;
    }
  }

  ghost predicate RowsSay(js: Js, header: seq<string>, rows: seq<seq<string>>, drafts: seq<Draft>) {
    |drafts| == |rows| && forall k :: 0 <= k < |rows| ==> RowSays(js, header, rows[k], drafts[k])
  }

  lemma NoSpeakingRowIsBlank(js: Js, header: seq<string>, rows: seq<seq<string>>, drafts: seq<Draft>)
    requires RowsSay(js, header, rows, drafts)
    ensures forall k :: 0 <= k < |rows| ==> !IsEmptyRow(js, rows[k])
  {
    forall k | 0 <= k < |rows| ensures !IsEmptyRow(js, rows[k]) {
      SpeakingRowIsNotBlank(js, header, rows[k], drafts[k]);
    }
  }

  lemma SpeakingRowsAreRead(js: Js, header: seq<string>, rows: seq<seq<string>>, drafts: seq<Draft>,
                            kept: seq<(seq<string>, nat)>)
    requires RowsSay(js, header, rows, drafts)
    requires |kept| == |rows| && forall k :: 0 <= k < |rows| ==> kept[k] == (rows[k], k + 2)
    ensures forall k :: 0 <= k < |rows| ==> ReadKept(js, kept, HeaderMap(js, header))[k] == Ok(drafts[k])
  {
    forall k | 0 <= k < |rows| ensures ReadKept(js, kept, HeaderMap(js, header))[k] == Ok(drafts[k]) {
      SpeakingRowIsRead(js, header, kept, k, drafts[k]);
    }
  }

  lemma RowsAreDrafts(js: Js, header: seq<string>, rows: seq<seq<string>>, drafts: seq<Draft>)
    requires RowsSay(js, header, rows, drafts)
    ensures ParseDrafts(js, rows, HeaderMap(js, header)) == Ok(drafts)
  {
    var headers, kept := HeaderMap(js, header), NonBlank(js, rows);
    NoSpeakingRowIsBlank(js, header, rows, drafts);
    NoRowIsBlank(js, rows);
    SpeakingRowsAreRead(js, header, rows, drafts, kept);
    DraftsAreTheNonBlankRows(js, rows, headers);
    OneOutcome(ReadKept(js, kept, headers), ParseDrafts(js, rows, headers), drafts);
  }

  /** The header names every required column. */
  ghost predicate NamesRequired(js: Js, header: seq<string>) {
    forall c :: IsRequired(c) ==> HasColumn(js, header, c)
  }

  lemma NothingIsMissing(js: Js, header: seq<string>)
    requires NamesRequired(js, header)
    ensures MissingColumnsOf(HeaderMap(js, header), REQUIRED_COLUMNS) == []
  {
    var missing := MissingColumnsOf(HeaderMap(js, header), REQUIRED_COLUMNS);
    if missing != [] {
      MissingColumnsMeaning(HeaderMap(js, header), REQUIRED_COLUMNS);
      assert missing[0] in missing;
      RequiredColumnsAre(missing[0]);
      HeaderMapMeaning(js, header, missing[0]);
    }
  }

  lemma ImportOfScanned(js: Js, content: string, header: seq<string>, rows: seq<seq<string>>, drafts: seq<Draft>)
    requires Csv.Scan(content, [], "", false) == [header] + rows
    requires MissingColumnsOf(HeaderMap(js, header), REQUIRED_COLUMNS) == []
    requires ParseDrafts(js, rows, HeaderMap(js, header)) == Ok(drafts)
    ensures Import(js, content) == Ok(Group(drafts, StringKey))
  {
    assert ([header] + rows)[1..] == rows;
  }

  /** Main result, the round trip of the import: rows that spell out drafts, under any header that names the
      required columns, written as a file with any terminator, are imported as those drafts, grouped. */
  lemma WrittenRowsAreImported(js: Js, header: seq<string>, rows: seq<seq<string>>, drafts: seq<Draft>,
                               end: Csv.Terminator)
    requires header != [] && NamesRequired(js, header)
    requires RowsSay(js, header, rows, drafts) && forall k :: 0 <= k < |rows| ==> rows[k] != []
    ensures Import(js, Csv.PrintLines(Csv.QuoteWhereNeeded([header] + rows, end))) == Ok(Group(drafts, StringKey))
  {
    Csv.EveryTableSurvives([header] + rows, end);
    NothingIsMissing(js, header);
    RowsAreDrafts(js, header, rows, drafts);
    ImportOfScanned(js, Csv.PrintLines(Csv.QuoteWhereNeeded([header] + rows, end)), header, rows, drafts);
  }

  lemma GroupOfOne(d: Draft)
    ensures Group([d], StringKey) == [StationRecord(d.station, [d.connector])]
  {
    assert Firsts(KeysOf([], StringKey)) == [] && [] + [d] == [d];
    GroupAppend([], d, StringKey);
  }

  /** So a file with one row gives exactly the station and the connector that the row spells out. */
  lemma OneRowIsImported(js: Js, header: seq<string>, row: seq<string>, d: Draft, end: Csv.Terminator)
    requires header != [] && NamesRequired(js, header)
    requires row != [] && RowSays(js, header, row, d)
    ensures Import(js, Csv.PrintLines(Csv.QuoteWhereNeeded([header] + [row], end)))
         == Ok([StationRecord(d.station, [d.connector])])
  {
    assert RowsSay(js, header, [row], [d]);
    WrittenRowsAreImported(js, header, [row], [d], end);
    GroupOfOne(d);
  }

  /** A list of amenities comes back when its entries are trimmed, not empty and without bars. */
  lemma AmenitiesComeBack(js: Js, list: seq<string>)
    requires list != [] && AllFree(list, '|') && forall i :: 0 <= i < |list| ==>
      list[i] != "" && Trimmed(js.isSpace, list[i])
    ensures Filter(TrimAll(js.isSpace, Split(Join(list, '|'), '|')), NotEmpty()) == list
  {
    SplitUndoesJoin(list, '|');
    forall i | 0 <= i < |list| ensures TrimAll(js.isSpace, list)[i] == list[i] {
      TrimIsIdentity(js.isSpace, list[i]);
    }
    assert TrimAll(js.isSpace, list) == list;
    FilterKeepsAll(list, NotEmpty());
  }

  lemma {:induction false} FilterKeepsAll<T>(items: seq<T>, qualifies: T -> bool)
    requires forall i :: 0 <= i < |items| ==> qualifies(items[i])
    ensures Filter(items, qualifies) == items
  {
    if items != [] {
      FilterKeepsAll(items[1..], qualifies);
      assert items == [items[0]] + items[1..];
    }
  }
}
