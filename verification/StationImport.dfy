/** Operator CSV rows grouped into stations through two insertion-ordered maps. */
module StationImport {
  import opened Text
  import opened StationStatuses
  import Csv = CsvRows

  /** The JavaScript string functions that the importer calls. */
  datatype Js = Js(isSpace: char -> bool, toUpper: string -> string, toLower: string -> string,
                   toNumber: string -> Option<real>)

  datatype Result<+T> = Ok(value: T) | Err(error: ImportError) {
    predicate IsFailure() { Err? }

    function PropagateFailure<U>(): Result<U>
      requires Err?
    {
      Err(error)
    }

    function Extract(): T
      requires Ok?
    {
      value
    }
  }

  datatype ImportError =
    | MissingColumns(columns: seq<string>)
    | MissingValue(column: string, line: nat)
    | InvalidNumber(column: string, line: nat)

  datatype Connector = Connector(evseId: string, connectorType: ConnectorType, powerKw: real, status: Status)

  datatype Station = Station(operatorId: string, externalId: string, operatorName: string, name: string,
                             address: string, city: string, latitude: real, longitude: real, status: Status,
                             openingHours: Option<string>, amenities: seq<string>)

  /** A station with its connectors, as handed to the import. */
  datatype StationRecord = StationRecord(station: Station, connectors: seq<Connector>)

  /** One data row: the station it names and the one connector it carries. */
  datatype Draft = Draft(station: Station, connector: Connector)

  const REQUIRED_COLUMNS := ["external_id", "operator_id", "operator_name", "name", "address", "city",
                             "latitude", "longitude", "evse_id", "connector_type", "power_kw"]

  type Headers = map<string, nat>

  // ----- reading one row -----

  /** Later columns with the same name win. */
  function HeaderMap(js: Js, header: seq<string>): Headers {
    if header == [] then map[]
    else
      var last := |header| - 1;
      HeaderMap(js, header[..last])[js.toLower(Trim(js.isSpace, header[last])) := last]
  }

  function MissingColumnsOf(headers: Headers, columns: seq<string>): seq<string> {
    if columns == [] then []
    else (if columns[0] in headers then [] else [columns[0]]) + MissingColumnsOf(headers, columns[1..])
  }

  function ReadOptional(js: Js, row: seq<string>, headers: Headers, column: string): Option<string> {
    if column !in headers || headers[column] >= |row| then None
    else
      var value := Trim(js.isSpace, row[headers[column]]);
      if value == "" then None else Some(value)
  }

  function ReadRequired(js: Js, row: seq<string>, headers: Headers, column: string, line: nat): Result<string> {
    var value := ReadOptional(js, row, headers, column);
    if value.None? then Err(MissingValue(column, line)) else Ok(value.value)
  }

  function ReadNumber(js: Js, row: seq<string>, headers: Headers, column: string, line: nat): Result<real> {
    var text :- ReadRequired(js, row, headers, column, line);
    var number := js.toNumber(text);
    if number.None? then Err(InvalidNumber(column, line)) else Ok(number.value)
  }

  function ParseConnectorType(js: Js, raw: string): ConnectorType {
    var name := js.toUpper(Trim(js.isSpace, raw));
    if name == "TYPE_1" || name == "TYPE 1" then TYPE_1
    else if name == "TYPE_2" || name == "TYPE 2" then TYPE_2
    else if name == "CHADEMO" then CHADEMO
    else if name == "TESLA" then TESLA
    else if name == "GBT" || name == "GB/T" then GBT
    else CCS
  }

  function ParseStatus(js: Js, raw: Option<string>): Status {
    if raw.None? then AVAILABLE
    else
      var name := js.toUpper(Trim(js.isSpace, raw.value));
      if name == "OCCUPIED" then OCCUPIED
      else if name == "OFFLINE" then OFFLINE
      else if name == "MAINTENANCE" then MAINTENANCE
      else AVAILABLE
  }

  function ParseAmenities(js: Js, raw: Option<string>): seq<string> {
    if raw.None? then [] else NonEmptyTrimmed(js, Split(raw.value, '|'))
  }

  function NonEmptyTrimmed(js: Js, parts: seq<string>): seq<string> {
    if parts == [] then []
    else
      var part := Trim(js.isSpace, parts[0]);
      (if part == "" then [] else [part]) + NonEmptyTrimmed(js, parts[1..])
  }

  function ParseDraft(js: Js, row: seq<string>, headers: Headers, line: nat): Result<Draft> {
    var externalId :- ReadRequired(js, row, headers, "external_id", line);
    var operatorId :- ReadRequired(js, row, headers, "operator_id", line);
    var operatorName :- ReadRequired(js, row, headers, "operator_name", line);
    var name :- ReadRequired(js, row, headers, "name", line);
    var address :- ReadRequired(js, row, headers, "address", line);
    var city :- ReadRequired(js, row, headers, "city", line);
    var latitude :- ReadNumber(js, row, headers, "latitude", line);
    var longitude :- ReadNumber(js, row, headers, "longitude", line);
    var status := ParseStatus(js, ReadOptional(js, row, headers, "status"));
    var openingHours := ReadOptional(js, row, headers, "opening_hours");
    var amenities := ParseAmenities(js, ReadOptional(js, row, headers, "amenities"));
    var connector :- ParseConnector(js, row, headers, line);
    Ok(Draft(Station(operatorId, externalId, operatorName, name, address, city, latitude, longitude, status,
                     openingHours, amenities),
             connector))
  }

  function ParseConnector(js: Js, row: seq<string>, headers: Headers, line: nat): Result<Connector> {
    var evseId :- ReadRequired(js, row, headers, "evse_id", line);
    var connectorType :- ReadRequired(js, row, headers, "connector_type", line);
    var powerKw :- ReadNumber(js, row, headers, "power_kw", line);
    Ok(Connector(evseId, ParseConnectorType(js, connectorType), powerKw,
                 ParseStatus(js, ReadOptional(js, row, headers, "connector_status"))))
  }

  predicate IsEmptyRow(js: Js, row: seq<string>) {
    forall i :: 0 <= i < |row| ==> Trim(js.isSpace, row[i]) == ""
  }

  /** The drafts of all non-blank data rows, or the error of the first row that has one. Row k of `rows`
      is reported as line k + 2, after the header. */
  function ParseDrafts(js: Js, rows: seq<seq<string>>, headers: Headers): Result<seq<Draft>> {
    if rows == [] then Ok([])
    else
      var last := |rows| - 1;
      var drafts :- ParseDrafts(js, rows[..last], headers);
      if IsEmptyRow(js, rows[last]) then Ok(drafts)
      else
        var draft :- ParseDraft(js, rows[last], headers, last + 2);
        Ok(drafts + [draft])
  }

  /** The non-blank rows with the line each is reported as. */
  function NonBlank(js: Js, rows: seq<seq<string>>): seq<(seq<string>, nat)> {
    if rows == [] then []
    else
      var last := |rows| - 1;
      var others := NonBlank(js, rows[..last]);
      if IsEmptyRow(js, rows[last]) then others else others + [(rows[last], last + 2)]
  }

  /** What each kept row by itself is read as. */
  function ReadKept(js: Js, kept: seq<(seq<string>, nat)>, headers: Headers): (r: seq<Result<Draft>>)
    ensures |r| == |kept|
  {
    seq(|kept|, k requires 0 <= k < |kept| => ParseDraft(js, kept[k].0, headers, kept[k].1))
  }

  /** Row k is the first of the rows that does not parse, and this is its error. */
  predicate FailsFirst(read: seq<Result<Draft>>, k: nat, error: ImportError) {
    k < |read| && read[k] == Err(error) && forall j :: 0 <= j < k ==> read[j].Ok?
  }

  /** The outcome has exactly one draft per row, in order, or is the error of the first that does not parse. */
  ghost predicate Corresponds(read: seq<Result<Draft>>, outcome: Result<seq<Draft>>) {
    match outcome
    case Ok(drafts) => |drafts| == |read| && forall k :: 0 <= k < |read| ==> read[k] == Ok(drafts[k])
    case Err(error) => exists k: nat :: FailsFirst(read, k, error)
  }

  lemma OneMoreRowCorresponds(read: seq<Result<Draft>>, outcome: Result<seq<Draft>>, draft: Result<Draft>)
    requires Corresponds(read, outcome)
    ensures Corresponds(read + [draft],
                        if outcome.Err? then outcome
                        else if draft.Err? then Err(draft.error)
                        else Ok(outcome.value + [draft.value]))
  {
    if outcome.Err? {
      var k: nat :| FailsFirst(read, k, outcome.error);
      assert FailsFirst(read + [draft], k, outcome.error);
    } else if draft.Err? {
      assert FailsFirst(read + [draft], |read|, draft.error);
    }
  }

  lemma ReadKeptAppend(js: Js, kept: seq<(seq<string>, nat)>, headers: Headers, row: seq<string>, line: nat)
    ensures ReadKept(js, kept + [(row, line)], headers)
      == ReadKept(js, kept, headers) + [ParseDraft(js, row, headers, line)]
  {}

  /** A successful parse has exactly one draft per non-blank row, in order; a failed one reports the first
      row that does not parse. */
  lemma {:induction false} DraftsAreTheNonBlankRows(js: Js, rows: seq<seq<string>>, headers: Headers)
    ensures Corresponds(ReadKept(js, NonBlank(js, rows), headers), ParseDrafts(js, rows, headers))
  {
    if rows != [] {
      var last := |rows| - 1;
      DraftsAreTheNonBlankRows(js, rows[..last], headers);
      var kept, outcome := NonBlank(js, rows[..last]), ParseDrafts(js, rows[..last], headers);
      if !IsEmptyRow(js, rows[last]) {
        ReadKeptAppend(js, kept, headers, rows[last], last + 2);
        OneMoreRowCorresponds(ReadKept(js, kept, headers), outcome, ParseDraft(js, rows[last], headers, last + 2));
      }
    }
  }

  predicate HasValue(js: Js, row: seq<string>, headers: Headers, column: string) {
    ReadOptional(js, row, headers, column).Some?
  }

  predicate HasNumber(js: Js, row: seq<string>, headers: Headers, column: string) {
    HasValue(js, row, headers, column) && js.toNumber(ReadOptional(js, row, headers, column).value).Some?
  }

  /** A row parses exactly when every required column has a value and the three numeric ones a finite number. */
  lemma RowParsesWhenComplete(js: Js, row: seq<string>, headers: Headers, line: nat)
    ensures ParseDraft(js, row, headers, line).Ok? <==>
      && HasValue(js, row, headers, "external_id") && HasValue(js, row, headers, "operator_id")
      && HasValue(js, row, headers, "operator_name") && HasValue(js, row, headers, "name")
      && HasValue(js, row, headers, "address") && HasValue(js, row, headers, "city")
      && HasNumber(js, row, headers, "latitude") && HasNumber(js, row, headers, "longitude")
      && HasValue(js, row, headers, "evse_id") && HasValue(js, row, headers, "connector_type")
      && HasNumber(js, row, headers, "power_kw")
  {}

  // ----- the specification of grouping -----

  /** The distinct items in order of first occurrence. */
  function Firsts<K(==, !new)>(items: seq<K>): (r: seq<K>)
    ensures forall k :: k in r <==> k in items
    ensures forall i, j :: 0 <= i < j < |r| ==> r[i] != r[j]
  {
    if items == [] then []
    else
      var last := items[|items| - 1];
      var firsts := Firsts(items[..|items| - 1]);
      assert items == items[..|items| - 1] + [last];
      if last in firsts then firsts else firsts + [last]
  }

  function KeysOf<K(!new)>(drafts: seq<Draft>, key: Draft -> K): (r: seq<K>)
    ensures |r| == |drafts| && forall i :: 0 <= i < |r| ==> r[i] == key(drafts[i])
  {
    seq(|drafts|, i requires 0 <= i < |drafts| => key(drafts[i]))
  }

  /** The drafts with a given key, in order. */
  function Select<K(==, !new)>(drafts: seq<Draft>, key: Draft -> K, k: K): (r: seq<Draft>)
    ensures r == [] <==> k !in KeysOf(drafts, key)
  {
    if drafts == [] then []
    else
      var front, last := drafts[..|drafts| - 1], drafts[|drafts| - 1];
      assert KeysOf(drafts, key) == KeysOf(front, key) + [key(last)];
      if key(last) == k then Select(front, key, k) + [last] else Select(front, key, k)
  }

  function EvseOf(d: Draft): string { d.connector.evseId }

  /** The connector of the last draft with the given EVSE id. */
  function LastConnector(group: seq<Draft>, evseId: string): Connector
    requires evseId in KeysOf(group, EvseOf)
  {
    var front, last := group[..|group| - 1], group[|group| - 1];
    assert KeysOf(group, EvseOf) == KeysOf(front, EvseOf) + [EvseOf(last)];
    if EvseOf(last) == evseId then last.connector else LastConnector(front, evseId)
  }

  /** The distinct EVSE ids of a group in first-occurrence order, each with its last row's values. */
  function ConnectorsOf(group: seq<Draft>): seq<Connector> {
    var evseIds := Firsts(KeysOf(group, EvseOf));
    seq(|evseIds|, i requires 0 <= i < |evseIds| => LastConnector(group, evseIds[i]))
  }

  function RecordOf(group: seq<Draft>): StationRecord
    requires group != []
  {
    StationRecord(group[0].station, ConnectorsOf(group))
  }

  /** One record per distinct key, in order of first occurrence, with the first row's station. */
  function Group<K(==, !new)>(drafts: seq<Draft>, key: Draft -> K): (r: seq<StationRecord>)
    ensures |r| == |Firsts(KeysOf(drafts, key))|
  {
    var keys := Firsts(KeysOf(drafts, key));
    seq(|keys|, i requires 0 <= i < |keys| => RecordOf(Select(drafts, key, keys[i])))
  }

  /** The map key that the importer builds. */
  function StringKey(d: Draft): string {
    d.station.operatorId + ":" + d.station.externalId
  }

  function PairKey(d: Draft): (string, string) {
    (d.station.operatorId, d.station.externalId)
  }

  /** The whole import. */
  function Import(js: Js, csvContent: string): Result<seq<StationRecord>> {
    var rows := Csv.Scan(csvContent, [], "", false);
    if rows == [] then Ok([])
    else
      var headers := HeaderMap(js, rows[0]);
      var missing := MissingColumnsOf(headers, REQUIRED_COLUMNS);
      if missing != [] then Err(MissingColumns(missing))
      else
        var drafts :- ParseDrafts(js, rows[1..], headers);
        Ok(Group(drafts, StringKey))
  }

  // ----- the loop over insertion-ordered maps -----

  function IndexIn<K(==)>(items: seq<K>, k: K): (i: nat)
    ensures i <= |items|
    ensures i < |items| ==> items[i] == k
    ensures i == |items| <==> k !in items
  {
    if items == [] || items[0] == k then 0 else 1 + IndexIn(items[1..], k)
  }

  function EvseIds(connectors: seq<Connector>): (r: seq<string>)
    ensures |r| == |connectors|
  {
    seq(|connectors|, i requires 0 <= i < |connectors| => connectors[i].evseId)
  }

  /** Map.set on the connectors of one station: a known EVSE id keeps its place. */
  function SetConnector(connectors: seq<Connector>, c: Connector): seq<Connector> {
    var i := IndexIn(EvseIds(connectors), c.evseId);
    if i < |connectors| then connectors[i := c] else connectors + [c]
  }

  lemma FirstsAppend<K(!new)>(items: seq<K>, k: K)
    ensures Firsts(items + [k]) == if k in items then Firsts(items) else Firsts(items) + [k]
  {
    assert (items + [k])[..|items|] == items;
  }

  lemma KeysAppend<K(!new)>(drafts: seq<Draft>, d: Draft, key: Draft -> K)
    ensures KeysOf(drafts + [d], key) == KeysOf(drafts, key) + [key(d)]
  {}

  lemma SelectAppend<K(!new)>(drafts: seq<Draft>, d: Draft, key: Draft -> K, k: K)
    ensures Select(drafts + [d], key, k) == if key(d) == k then Select(drafts, key, k) + [d] else Select(drafts, key, k)
  {
    assert (drafts + [d])[..|drafts|] == drafts;
  }

  lemma {:induction false} ConnectorIds(group: seq<Draft>, evseId: string)
    requires evseId in KeysOf(group, EvseOf)
    ensures LastConnector(group, evseId).evseId == evseId
  {
    var front, last := group[..|group| - 1], group[|group| - 1];
    assert KeysOf(group, EvseOf) == KeysOf(front, EvseOf) + [EvseOf(last)];
    if EvseOf(last) != evseId {
      ConnectorIds(front, evseId);
    }
  }

  lemma ConnectorsEvseIds(group: seq<Draft>)
    ensures EvseIds(ConnectorsOf(group)) == Firsts(KeysOf(group, EvseOf))
  {
    var evseIds := Firsts(KeysOf(group, EvseOf));
    forall i | 0 <= i < |evseIds| ensures ConnectorsOf(group)[i].evseId == evseIds[i] {
      assert evseIds[i] in evseIds;
      ConnectorIds(group, evseIds[i]);
    }
  }

  lemma LastConnectorAppend(group: seq<Draft>, d: Draft, evseId: string)
    requires evseId in KeysOf(group + [d], EvseOf)
    ensures EvseOf(d) == evseId ==> LastConnector(group + [d], evseId) == d.connector
    ensures EvseOf(d) != evseId ==> evseId in KeysOf(group, EvseOf)
    ensures EvseOf(d) != evseId ==> LastConnector(group + [d], evseId) == LastConnector(group, evseId)
  {
    KeysAppend(group, d, EvseOf);
    assert (group + [d])[..|group|] == group;
  }

  lemma FirstsOfGroupAppend(group: seq<Draft>, d: Draft)
    requires EvseOf(d) !in KeysOf(group, EvseOf)
    ensures Firsts(KeysOf(group + [d], EvseOf)) == Firsts(KeysOf(group, EvseOf)) + [EvseOf(d)]
  {
    KeysAppend(group, d, EvseOf);
    FirstsAppend(KeysOf(group, EvseOf), EvseOf(d));
  }

  lemma ConnectorStays(group: seq<Draft>, d: Draft, i: nat)
    requires EvseOf(d) !in KeysOf(group, EvseOf) && i < |ConnectorsOf(group)|
    ensures i < |ConnectorsOf(group + [d])| && ConnectorsOf(group + [d])[i] == ConnectorsOf(group)[i]
  {
    var evseIds := Firsts(KeysOf(group, EvseOf));
    FirstsOfGroupAppend(group, d);
    assert evseIds[i] in evseIds;
    KeysAppend(group, d, EvseOf);
    LastConnectorAppend(group, d, evseIds[i]);
  }

  lemma ConnectorComesLast(group: seq<Draft>, d: Draft)
    requires EvseOf(d) !in KeysOf(group, EvseOf)
    ensures |ConnectorsOf(group + [d])| == |ConnectorsOf(group)| + 1
    ensures ConnectorsOf(group + [d])[|ConnectorsOf(group)|] == d.connector
  {
    FirstsOfGroupAppend(group, d);
    KeysAppend(group, d, EvseOf);
    LastConnectorAppend(group, d, EvseOf(d));
  }

  lemma ConnectorsAppendNew(group: seq<Draft>, d: Draft)
    requires EvseOf(d) !in KeysOf(group, EvseOf)
    ensures ConnectorsOf(group + [d]) == ConnectorsOf(group) + [d.connector]
  {
    var before, after := ConnectorsOf(group), ConnectorsOf(group + [d]);
    ConnectorComesLast(group, d);
    forall i | 0 <= i < |before| ensures after[i] == before[i] {
      ConnectorStays(group, d, i);
    }
    SamePrefixAppended(before, after, d.connector);
  }

  lemma SamePrefixAppended<T>(before: seq<T>, after: seq<T>, last: T)
    requires |after| == |before| + 1 && after[|before|] == last
    requires forall i :: 0 <= i < |before| ==> after[i] == before[i]
    ensures after == before + [last]
  {}

  lemma ConnectorsAppendKnown(group: seq<Draft>, d: Draft, at: nat)
    requires var evseIds := Firsts(KeysOf(group, EvseOf)); at < |evseIds| && evseIds[at] == EvseOf(d)
    ensures at < |ConnectorsOf(group)| && ConnectorsOf(group + [d]) == ConnectorsOf(group)[at := d.connector]
  {
    var evseIds := Firsts(KeysOf(group, EvseOf));
    KeysAppend(group, d, EvseOf);
    assert evseIds[at] in evseIds;
    FirstsAppend(KeysOf(group, EvseOf), EvseOf(d));
    forall i | 0 <= i < |evseIds| && i != at ensures ConnectorsOf(group + [d])[i] == ConnectorsOf(group)[i] {
      LastConnectorAppend(group, d, evseIds[i]);
    }
    LastConnectorAppend(group, d, EvseOf(d));
  }

  /** One more row of a station sets its connector, and nothing else. */
  lemma ConnectorsAppend(group: seq<Draft>, d: Draft)
    ensures ConnectorsOf(group + [d]) == SetConnector(ConnectorsOf(group), d.connector)
  {
    ConnectorsEvseIds(group);
    var at := IndexIn(Firsts(KeysOf(group, EvseOf)), EvseOf(d));
    if at < |ConnectorsOf(group)| {
      ConnectorsAppendKnown(group, d, at);
    } else {
      ConnectorsAppendNew(group, d);
    }
  }

  /** A draft with another key leaves a record as it is. */
  lemma RecordStays<K(!new)>(drafts: seq<Draft>, d: Draft, key: Draft -> K, i: nat)
    requires i < |Group(drafts, key)| && Firsts(KeysOf(drafts, key))[i] != key(d)
    ensures i < |Group(drafts + [d], key)| && Group(drafts + [d], key)[i] == Group(drafts, key)[i]
  {
    var keys := Firsts(KeysOf(drafts, key));
    KeysAppend(drafts, d, key);
    FirstsAppend(KeysOf(drafts, key), key(d));
    assert keys[i] in keys;
    GroupAppendAt(drafts, d, key, keys[i]);
  }

  lemma NewRecordComesLast<K(!new)>(drafts: seq<Draft>, d: Draft, key: Draft -> K)
    requires key(d) !in KeysOf(drafts, key)
    ensures Firsts(KeysOf(drafts + [d], key)) == Firsts(KeysOf(drafts, key)) + [key(d)]
    ensures |Group(drafts + [d], key)| == |Group(drafts, key)| + 1
    ensures Group(drafts + [d], key)[|Group(drafts, key)|] == StationRecord(d.station, [d.connector])
  {
    KeysAppend(drafts, d, key);
    FirstsAppend(KeysOf(drafts, key), key(d));
    GroupAppendAt(drafts, d, key, key(d));
  }

  lemma GroupAppendNew<K(!new)>(drafts: seq<Draft>, d: Draft, key: Draft -> K)
    requires key(d) !in KeysOf(drafts, key)
    ensures Firsts(KeysOf(drafts + [d], key)) == Firsts(KeysOf(drafts, key)) + [key(d)]
    ensures Group(drafts + [d], key) == Group(drafts, key) + [StationRecord(d.station, [d.connector])]
  {
    var before, after := Group(drafts, key), Group(drafts + [d], key);
    NewRecordComesLast(drafts, d, key);
    forall i | 0 <= i < |before| ensures after[i] == before[i] {
      assert Firsts(KeysOf(drafts, key))[i] in Firsts(KeysOf(drafts, key));
      RecordStays(drafts, d, key, i);
    }
    SamePrefixAppended(before, after, StationRecord(d.station, [d.connector]));
  }

  lemma KnownRecordIsSet<K(!new)>(drafts: seq<Draft>, d: Draft, key: Draft -> K, at: nat)
    requires at < |Firsts(KeysOf(drafts, key))| && Firsts(KeysOf(drafts, key))[at] == key(d)
    ensures Firsts(KeysOf(drafts + [d], key)) == Firsts(KeysOf(drafts, key))
    ensures var record := Group(drafts, key)[at];
      Group(drafts + [d], key)[at] == StationRecord(record.station, SetConnector(record.connectors, d.connector))
  {
    assert Firsts(KeysOf(drafts, key))[at] in Firsts(KeysOf(drafts, key));
    KeysAppend(drafts, d, key);
    FirstsAppend(KeysOf(drafts, key), key(d));
    GroupAppendAt(drafts, d, key, key(d));
  }

  lemma GroupAppendKnown<K(!new)>(drafts: seq<Draft>, d: Draft, key: Draft -> K, at: nat)
    requires at < |Firsts(KeysOf(drafts, key))| && Firsts(KeysOf(drafts, key))[at] == key(d)
    ensures Firsts(KeysOf(drafts + [d], key)) == Firsts(KeysOf(drafts, key))
    ensures var record := Group(drafts, key)[at];
      Group(drafts + [d], key)
      == Group(drafts, key)[at := StationRecord(record.station, SetConnector(record.connectors, d.connector))]
  {
    var before, after := Group(drafts, key), Group(drafts + [d], key);
    KnownRecordIsSet(drafts, d, key, at);
    forall i | 0 <= i < |before| && i != at ensures after[i] == before[i] {
      RecordStays(drafts, d, key, i);
    }
    SameButOne(before, after, at);
  }

  lemma SameButOne<T>(before: seq<T>, after: seq<T>, at: nat)
    requires |after| == |before| && at < |before|
    requires forall i :: 0 <= i < |before| && i != at ==> after[i] == before[i]
    ensures after == before[at := after[at]]
  {}

  /** One more row either opens a station at the end or sets a connector of the station it names. */
  lemma GroupAppend<K(!new)>(drafts: seq<Draft>, d: Draft, key: Draft -> K)
    ensures var keys, i := Firsts(KeysOf(drafts, key)), IndexIn(Firsts(KeysOf(drafts, key)), key(d));
      if i == |keys| then
        && Firsts(KeysOf(drafts + [d], key)) == keys + [key(d)]
        && Group(drafts + [d], key) == Group(drafts, key) + [StationRecord(d.station, [d.connector])]
      else
        && Firsts(KeysOf(drafts + [d], key)) == keys
        && Group(drafts + [d], key)
           == Group(drafts, key)[i := StationRecord(Group(drafts, key)[i].station,
                                                    SetConnector(Group(drafts, key)[i].connectors, d.connector))]
  {
    var keys := Firsts(KeysOf(drafts, key));
    var at := IndexIn(keys, key(d));
    if at == |keys| {
      GroupAppendNew(drafts, d, key);
    } else {
      GroupAppendKnown(drafts, d, key, at);
    }
  }

  lemma GroupAppendAt<K(!new)>(drafts: seq<Draft>, d: Draft, key: Draft -> K, k: K)
    ensures var before, after := Select(drafts, key, k), Select(drafts + [d], key, k);
      && (key(d) != k ==> after == before)
      && (key(d) == k && before == [] ==> after != [] && RecordOf(after) == StationRecord(d.station, [d.connector]))
      && (key(d) == k && before != [] ==>
           after != [] &&
           RecordOf(after)
             == StationRecord(RecordOf(before).station, SetConnector(RecordOf(before).connectors, d.connector)))
  {
    SelectAppend(drafts, d, key, k);
    ConnectorsAppend(Select(drafts, key, k), d);
  }

  method ParseOperatorStationsCsv(js: Js, csvContent: string) returns (result: Result<seq<StationRecord>>)
    ensures result == Import(js, csvContent)
  {
    var rows := Csv.ParseCsvRows(csvContent);
    if |rows| == 0 {
      return Ok([]);
    }
    var headers := HeaderMap(js, rows[0]);
    var missing := MissingColumnsOf(headers, REQUIRED_COLUMNS);
    if |missing| > 0 {
      return Err(MissingColumns(missing));
    }
    result := GroupRows(js, rows[1..], headers);
  }

  /** The Map of stations is its keys and its values, both in insertion order. */
  method GroupRows(js: Js, rows: seq<seq<string>>, headers: Headers) returns (result: Result<seq<StationRecord>>)
    ensures result == var drafts := ParseDrafts(js, rows, headers);
      if drafts.Err? then Err(drafts.error) else Ok(Group(drafts.value, StringKey))
  {
    var keys: seq<string> := [];
    var stations: seq<StationRecord> := [];
    ghost var drafts: seq<Draft> := [];
    for index := 0 to |rows|
      invariant ParseDrafts(js, rows[..index], headers) == Ok(drafts)
      invariant keys == Firsts(KeysOf(drafts, StringKey)) && stations == Group(drafts, StringKey)
    {
      var line := rows[index];
      assert rows[..index + 1][..index] == rows[..index];
      if !IsEmptyRow(js, line) {
        var parsed := ParseDraft(js, line, headers, index + 2);
        if parsed.Err? {
          FirstErrorStays(js, rows, headers, index + 1);
          return Err(parsed.error);
        }
        var draft := parsed.value;
        GroupAppend(drafts, draft, StringKey);
        var at := IndexIn(keys, StringKey(draft));
        if at == |keys| {
          keys := keys + [StringKey(draft)];
          stations := stations + [StationRecord(draft.station, [draft.connector])];
        } else {
          stations := stations[at := StationRecord(stations[at].station,
                                                   SetConnector(stations[at].connectors, draft.connector))];
        }
        drafts := drafts + [draft];
      }
    }
    assert rows[..|rows|] == rows;
    return Ok(stations);
  }

  lemma {:induction false} FirstErrorStays(js: Js, rows: seq<seq<string>>, headers: Headers, k: nat)
    requires k <= |rows| && ParseDrafts(js, rows[..k], headers).Err?
    ensures ParseDrafts(js, rows, headers) == ParseDrafts(js, rows[..k], headers)
    decreases |rows|
  {
    if k == |rows| {
      assert rows[..k] == rows;
    } else {
      var front := rows[..|rows| - 1];
      assert front[..k] == rows[..k];
      FirstErrorStays(js, front, headers, k);
    }
  }

  // ----- main results -----

  /** A row's station is listed once, under the first row with its key, and its EVSE once within that
      station, with the values of the last row for both. */
  lemma EveryRowRepresentedOnce<K(!new)>(drafts: seq<Draft>, key: Draft -> K, i: nat) returns (s: nat, c: nat)
    requires i < |drafts|
    ensures s < |Group(drafts, key)| && Firsts(KeysOf(drafts, key))[s] == key(drafts[i])
    ensures forall s' :: 0 <= s' < |Group(drafts, key)| && Firsts(KeysOf(drafts, key))[s'] == key(drafts[i]) ==> s' == s
    ensures exists f | 0 <= f <= i && key(drafts[f]) == key(drafts[i])
      && (forall g :: 0 <= g < f ==> key(drafts[g]) != key(drafts[i])) ::
      Group(drafts, key)[s].station == drafts[f].station
    ensures var connectors := Group(drafts, key)[s].connectors;
      && c < |connectors| && connectors[c].evseId == EvseOf(drafts[i])
      && (forall c' :: 0 <= c' < |connectors| && connectors[c'].evseId == EvseOf(drafts[i]) ==> c' == c)
      && exists l | i <= l < |drafts| && SameConnector(drafts[l], drafts[i], key)
           && (forall g :: l < g < |drafts| ==> !SameConnector(drafts[g], drafts[i], key)) ::
         connectors[c] == drafts[l].connector
  {
    var keys := Firsts(KeysOf(drafts, key));
    var k, evseId := key(drafts[i]), EvseOf(drafts[i]);
    assert KeysOf(drafts, key)[i] == k;
    s := IndexIn(keys, k);
    var f := FirstSelected(drafts, key, i);
    var l := LastSelected(drafts, key, i);
    var group := Select(drafts, key, k);
    ConnectorsEvseIds(group);
    c := IndexIn(EvseIds(ConnectorsOf(group)), evseId);
    assert evseId in Firsts(KeysOf(group, EvseOf));
    assert Group(drafts, key)[s] == RecordOf(group);
    forall c' | 0 <= c' < |ConnectorsOf(group)| && ConnectorsOf(group)[c'].evseId == evseId ensures c' == c {
      assert EvseIds(ConnectorsOf(group))[c'] == evseId;
    }
  }

  predicate SameConnector<K(==)>(a: Draft, b: Draft, key: Draft -> K) {
    key(a) == key(b) && EvseOf(a) == EvseOf(b)
  }

  lemma {:induction false} FirstSelected<K(!new)>(drafts: seq<Draft>, key: Draft -> K, i: nat) returns (f: nat)
    requires i < |drafts|
    ensures f <= i && key(drafts[f]) == key(drafts[i])
    ensures forall g :: 0 <= g < f ==> key(drafts[g]) != key(drafts[i])
    ensures var group := Select(drafts, key, key(drafts[i])); group != [] && group[0] == drafts[f]
    decreases |drafts|
  {
    var k := key(drafts[i]);
    var front := drafts[..|drafts| - 1];
    var before := Select(front, key, k);
    if before == [] {
      forall g | 0 <= g < |front| ensures key(drafts[g]) != k {
        assert KeysOf(front, key)[g] == key(drafts[g]);
      }
      f := i;
    } else {
      var j :| 0 <= j < |front| && KeysOf(front, key)[j] == k;
      f := FirstSelected(front, key, j);
      assert forall g :: 0 <= g < |front| ==> front[g] == drafts[g];
    }
  }

  lemma SelectsLast<K(!new)>(front: seq<Draft>, last: Draft, key: Draft -> K)
    ensures var group := Select(front + [last], key, key(last));
      EvseOf(last) in KeysOf(group, EvseOf) && LastConnector(group, EvseOf(last)) == last.connector
  {
    var before := Select(front, key, key(last));
    SelectAppend(front, last, key, key(last));
    KeysAppend(before, last, EvseOf);
    assert (KeysOf(before, EvseOf) + [EvseOf(last)])[|before|] == EvseOf(last);
    LastConnectorAppend(before, last, EvseOf(last));
  }

  lemma SelectsAsBefore<K(!new)>(front: seq<Draft>, last: Draft, key: Draft -> K, d: Draft)
    requires !SameConnector(last, d, key) && EvseOf(d) in KeysOf(Select(front, key, key(d)), EvseOf)
    ensures var before, group := Select(front, key, key(d)), Select(front + [last], key, key(d));
      EvseOf(d) in KeysOf(group, EvseOf) && LastConnector(group, EvseOf(d)) == LastConnector(before, EvseOf(d))
  {
    var before := Select(front, key, key(d));
    SelectAppend(front, last, key, key(d));
    if key(last) == key(d) {
      KeysAppend(before, last, EvseOf);
      LastConnectorAppend(before, last, EvseOf(d));
    }
  }

  lemma {:induction false} LastSelected<K(!new)>(drafts: seq<Draft>, key: Draft -> K, i: nat) returns (l: nat)
    requires i < |drafts|
    ensures i <= l < |drafts| && SameConnector(drafts[l], drafts[i], key)
    ensures forall g :: l < g < |drafts| ==> !SameConnector(drafts[g], drafts[i], key)
    ensures var group := Select(drafts, key, key(drafts[i]));
      EvseOf(drafts[i]) in KeysOf(group, EvseOf) && LastConnector(group, EvseOf(drafts[i])) == drafts[l].connector
    decreases |drafts|
  {
    var n := |drafts| - 1;
    var front, last := drafts[..n], drafts[n];
    assert front + [last] == drafts;
    if SameConnector(last, drafts[i], key) {
      l := n;
      SelectsLast(front, last, key);
    } else {
      l := LastSelected(front, key, i);
      assert forall g :: 0 <= g < n ==> front[g] == drafts[g];
      SelectsAsBefore(front, last, key, drafts[i]);
    }
  }

  lemma {:induction false} LastConnectorIsARow(group: seq<Draft>, evseId: string) returns (j: nat)
    requires evseId in KeysOf(group, EvseOf)
    ensures j < |group| && LastConnector(group, evseId) == group[j].connector
  {
    var n := |group| - 1;
    KeysAppend(group[..n], group[n], EvseOf);
    assert group[..n] + [group[n]] == group;
    if EvseOf(group[n]) == evseId {
      j := n;
    } else {
      j := LastConnectorIsARow(group[..n], evseId);
    }
  }

  lemma {:induction false} SelectedAreRows<K(!new)>(drafts: seq<Draft>, key: Draft -> K, k: K)
    ensures forall d :: d in Select(drafts, key, k) ==> d in drafts && key(d) == k
  {
    if drafts != [] {
      SelectedAreRows(drafts[..|drafts| - 1], key, k);
    }
  }

  /** And nothing is listed that no row says: every connector of every listed station is that of some row
      with the station's key. */
  lemma EveryConnectorIsARow<K(!new)>(drafts: seq<Draft>, key: Draft -> K, s: nat, c: nat) returns (i: nat)
    requires s < |Group(drafts, key)| && c < |Group(drafts, key)[s].connectors|
    ensures i < |drafts| && key(drafts[i]) == Firsts(KeysOf(drafts, key))[s]
    ensures Group(drafts, key)[s].connectors[c] == drafts[i].connector
  {
    var k := Firsts(KeysOf(drafts, key))[s];
    assert k in Firsts(KeysOf(drafts, key));
    var group := Select(drafts, key, k);
    var evseIds := Firsts(KeysOf(group, EvseOf));
    assert evseIds[c] in evseIds;
    var j := LastConnectorIsARow(group, evseIds[c]);
    SelectedAreRows(drafts, key, k);
    assert group[j] in group;
    i :| 0 <= i < |drafts| && drafts[i] == group[j];
  }

  /** Two stations whose keys read alike although they differ: one operator id extends the other by a colon
      and the start of the other's external id. */
  ghost predicate Ambiguous(a: Station, b: Station) {
    exists rest: string ::
      || (b.operatorId == a.operatorId + ":" + rest && a.externalId == rest + ":" + b.externalId)
      || (a.operatorId == b.operatorId + ":" + rest && b.externalId == rest + ":" + a.externalId)
  }

  lemma KeysCollideExactlyWhenAmbiguous(a: Draft, b: Draft)
    ensures StringKey(a) == StringKey(b) && PairKey(a) != PairKey(b) <==> Ambiguous(a.station, b.station)
  {
    var x, y := a.station, b.station;
    if StringKey(a) == StringKey(b) && PairKey(a) != PairKey(b) {
      if |x.operatorId| == |y.operatorId| {
        JoinedHalves(x.operatorId, x.externalId, y.operatorId, y.externalId);
      } else if |x.operatorId| < |y.operatorId| {
        Overlap(x, y);
      } else {
        Overlap(y, x);
      }
    }
    if Ambiguous(x, y) {
      var rest :| (y.operatorId == x.operatorId + ":" + rest && x.externalId == rest + ":" + y.externalId)
               || (x.operatorId == y.operatorId + ":" + rest && y.externalId == rest + ":" + x.externalId);
      if y.operatorId == x.operatorId + ":" + rest && x.externalId == rest + ":" + y.externalId {
        assert StringKey(a) == x.operatorId + ":" + rest + ":" + y.externalId;
        assert |y.operatorId| > |x.operatorId|;
      } else {
        assert StringKey(b) == y.operatorId + ":" + rest + ":" + x.externalId;
        assert |x.operatorId| > |y.operatorId|;
      }
    }
  }

  lemma JoinedHalves(a: string, b: string, c: string, d: string)
    requires a + ":" + b == c + ":" + d && |a| == |c|
    ensures a == c && b == d
  {
    var text := a + ":" + b;
    assert a == text[..|a|] && c == text[..|c|];
    assert b == text[|a| + 1..] && d == text[|c| + 1..];
  }

  lemma Overlap(x: Station, y: Station)
    requires x.operatorId + ":" + x.externalId == y.operatorId + ":" + y.externalId
    requires |x.operatorId| < |y.operatorId|
    ensures Ambiguous(x, y)
  {
    var text := x.operatorId + ":" + x.externalId;
    var m, n := |x.operatorId|, |y.operatorId|;
    var rest := text[m + 1..n];
    assert text == y.operatorId + ":" + y.externalId;
    assert y.operatorId == text[..n] && text[..n] == text[..m] + [text[m]] + rest;
    assert text[..m] == x.operatorId && text[m] == ':' && text[n] == ':';
    assert x.externalId == text[m + 1..] && text[m + 1..] == rest + [text[n]] + text[n + 1..];
    assert y.externalId == text[n + 1..];
    assert y.operatorId == x.operatorId + ":" + rest && x.externalId == rest + ":" + y.externalId;
  }

  /** Grouping by the concatenated key is grouping by operator and external id exactly when no two rows
      are ambiguous. */
  lemma GroupingIsByStation(drafts: seq<Draft>)
    ensures Group(drafts, StringKey) == Group(drafts, PairKey)
       <==> forall i, j :: 0 <= i < |drafts| && 0 <= j < |drafts| ==> !Ambiguous(drafts[i].station, drafts[j].station)
  {
    if forall i, j :: 0 <= i < |drafts| && 0 <= j < |drafts| ==> !Ambiguous(drafts[i].station, drafts[j].station) {
      forall i, j | 0 <= i < |drafts| && 0 <= j < |drafts|
        ensures StringKey(drafts[i]) == StringKey(drafts[j]) <==> PairKey(drafts[i]) == PairKey(drafts[j])
      {
        KeysCollideExactlyWhenAmbiguous(drafts[i], drafts[j]);
      }
      AlikeKeysGroupAlike(drafts, StringKey, PairKey);
    } else {
      var i, j :| 0 <= i < |drafts| && 0 <= j < |drafts| && Ambiguous(drafts[i].station, drafts[j].station);
      KeysCollideExactlyWhenAmbiguous(drafts[i], drafts[j]);
      AmbiguousRowsMerge(drafts, i, j);
    }
  }

  lemma FirstsOfTwo<K(!new)>(a: K, b: K)
    ensures Firsts([a, b]) == if a == b then [a] else [a, b]
  {
    assert [a, b][..1] == [a] && [a][..0] == [];
    assert Firsts([a]) == [a];
  }

  /** Two stations that become one: station "b:c" of operator "a", and station "c" of operator "a:b". */
  lemma TwoStationsMerge(d: Draft, e: Draft)
    requires d.station.operatorId == "a" && d.station.externalId == "b:c"
    requires e.station.operatorId == "a:b" && e.station.externalId == "c"
    ensures |Group([d, e], StringKey)| == 1 && |Group([d, e], PairKey)| == 2
  {
    assert StringKey(d) == "a:b:c" && StringKey(e) == "a:b:c";
    assert |d.station.operatorId| != |e.station.operatorId|;
    FirstsOfTwo(StringKey(d), StringKey(e));
    FirstsOfTwo(PairKey(d), PairKey(e));
    assert KeysOf([d, e], StringKey) == [StringKey(d), StringKey(e)];
    assert KeysOf([d, e], PairKey) == [PairKey(d), PairKey(e)];
  }

  /** Without a colon in any operator id no two rows are ambiguous. */
  lemma ColonFreeIsUnambiguous(a: Station, b: Station)
    requires Free(a.operatorId, ':') && Free(b.operatorId, ':')
    ensures !Ambiguous(a, b)
  {
    forall rest: string
      ensures b.operatorId != a.operatorId + ":" + rest && a.operatorId != b.operatorId + ":" + rest
    {
      assert (a.operatorId + ":" + rest)[|a.operatorId|] == ':';
      assert (b.operatorId + ":" + rest)[|b.operatorId|] == ':';
    }
  }

  /** Two keys tell the same drafts apart. */
  predicate Alike<K(==, !new), L(==, !new)>(drafts: seq<Draft>, key: Draft -> K, other: Draft -> L) {
    forall i, j :: 0 <= i < |drafts| && 0 <= j < |drafts| ==>
      (key(drafts[i]) == key(drafts[j]) <==> other(drafts[i]) == other(drafts[j]))
  }

  /** Every draft's station has one place under both keys. */
  predicate SamePlaces<K(==, !new), L(==, !new)>(drafts: seq<Draft>, key: Draft -> K, other: Draft -> L) {
    forall i :: 0 <= i < |drafts| ==>
      IndexIn(Firsts(KeysOf(drafts, key)), key(drafts[i])) == IndexIn(Firsts(KeysOf(drafts, other)), other(drafts[i]))
  }

  lemma {:induction false} AlikeKeysGroupAlike<K(!new), L(!new)>(drafts: seq<Draft>, key: Draft -> K, other: Draft -> L)
    requires Alike(drafts, key, other)
    ensures Group(drafts, key) == Group(drafts, other) && SamePlaces(drafts, key, other)
  {
    if drafts != [] {
      var front, last := drafts[..|drafts| - 1], drafts[|drafts| - 1];
      assert front + [last] == drafts;
      assert forall i :: 0 <= i < |front| ==> front[i] == drafts[i];
      AlikeKeysGroupAlike(front, key, other);
      SameFirstPosition(front, last, key, other);
      GroupAppend(front, last, key);
      GroupAppend(front, last, other);
      SamePlacesAppend(front, last, key, other);
    }
  }

  /** One more draft moves no key, and finds its own where it would be put. */
  lemma PlaceStays<K(!new)>(front: seq<Draft>, last: Draft, key: Draft -> K, i: nat)
    requires i <= |front|
    ensures var k := key((front + [last])[i]);
      IndexIn(Firsts(KeysOf(front + [last], key)), k) == IndexIn(Firsts(KeysOf(front, key)), k)
  {
    var firsts, k := Firsts(KeysOf(front, key)), key((front + [last])[i]);
    KeysAppend(front, last, key);
    FirstsAppend(KeysOf(front, key), key(last));
    IndexAppend(firsts, key(last), k);
    if i < |front| {
      assert KeysOf(front, key)[i] == k;
    }
  }

  lemma SamePlacesAppend<K(!new), L(!new)>(front: seq<Draft>, last: Draft, key: Draft -> K, other: Draft -> L)
    requires SamePlaces(front, key, other)
    requires IndexIn(Firsts(KeysOf(front, key)), key(last)) == IndexIn(Firsts(KeysOf(front, other)), other(last))
    ensures SamePlaces(front + [last], key, other)
  {
    var drafts := front + [last];
    forall i | 0 <= i < |drafts|
      ensures IndexIn(Firsts(KeysOf(drafts, key)), key(drafts[i]))
           == IndexIn(Firsts(KeysOf(drafts, other)), other(drafts[i]))
    {
      PlaceStays(front, last, key, i);
      PlaceStays(front, last, other, i);
    }
  }

  lemma {:induction false} IndexAppend<K>(items: seq<K>, last: K, k: K)
    ensures IndexIn(items + [last], k)
         == if k in items then IndexIn(items, k) else if k == last then |items| else |items| + 1
  {
    if items != [] && items[0] != k {
      assert (items + [last])[1..] == items[1..] + [last];
      IndexAppend(items[1..], last, k);
    }
  }

  lemma SameFirstPosition<K(!new), L(!new)>(front: seq<Draft>, last: Draft, key: Draft -> K, other: Draft -> L)
    requires forall i :: 0 <= i < |front| ==> (key(front[i]) == key(last) <==> other(front[i]) == other(last))
    requires forall i :: 0 <= i < |front| ==>
      IndexIn(Firsts(KeysOf(front, key)), key(front[i])) == IndexIn(Firsts(KeysOf(front, other)), other(front[i]))
    requires |Firsts(KeysOf(front, key))| == |Firsts(KeysOf(front, other))|
    ensures IndexIn(Firsts(KeysOf(front, key)), key(last)) == IndexIn(Firsts(KeysOf(front, other)), other(last))
  {
    if key(last) in KeysOf(front, key) {
      var i :| 0 <= i < |front| && KeysOf(front, key)[i] == key(last);
      assert key(front[i]) == key(last);
    } else {
      forall i | 0 <= i < |front| ensures KeysOf(front, other)[i] != other(last) {
        assert KeysOf(front, key)[i] == key(front[i]);
      }
    }
  }

  /** Two ambiguous rows share one record by concatenated key, where the pairs give two. */
  lemma AmbiguousRowsMerge(drafts: seq<Draft>, i: nat, j: nat)
    requires i < |drafts| && j < |drafts|
    requires StringKey(drafts[i]) == StringKey(drafts[j]) && PairKey(drafts[i]) != PairKey(drafts[j])
    ensures Group(drafts, StringKey) != Group(drafts, PairKey)
  {
    var byString, byPair := Group(drafts, StringKey), Group(drafts, PairKey);
    if byString == byPair {
      var a, _ := EveryRowRepresentedOnce(drafts, PairKey, i);
      var b, _ := EveryRowRepresentedOnce(drafts, PairKey, j);
      assert a != b;
      RecordKeepsKey(drafts, PairKey, a);
      RecordKeepsKey(drafts, PairKey, b);
      RecordKeepsKey(drafts, StringKey, a);
      RecordKeepsKey(drafts, StringKey, b);
      assert false;
    }
  }

  /** The station of a record carries the key it was grouped by. */
  lemma RecordKeepsKey<K(!new)>(drafts: seq<Draft>, key: Draft -> K, s: nat)
    requires s < |Group(drafts, key)|
    ensures exists d | d in drafts ::
      Group(drafts, key)[s].station == d.station && key(d) == Firsts(KeysOf(drafts, key))[s]
  {
    var k := Firsts(KeysOf(drafts, key))[s];
    assert k in KeysOf(drafts, key);
    var i :| 0 <= i < |drafts| && KeysOf(drafts, key)[i] == k;
    var f := FirstSelected(drafts, key, i);
    assert drafts[f] in drafts;
  }
}
