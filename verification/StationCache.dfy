/** Station queries answered through the cache, and the connector updates that invalidate it. */
module StationCache {
  import opened Text
  import opened StationStatuses
  import opened CacheKeys

  type Id = string

  // ----- the database -----

  datatype ConnectorRow = ConnectorRow(id: Id, stationId: Id, connectorType: ConnectorType, powerKw: real,
                                       status: Status, lastStatusUpdate: int)

  /** The columns of a station that connector updates write, and the one that filters read. */
  datatype StationRow = StationRow(operatorId: string, status: Status, updatedAt: int)

  datatype Database = Database(stations: map<Id, StationRow>, connectors: seq<ConnectorRow>) {
    /** Connectors have distinct ids and belong to stations that exist. */
    predicate Valid() {
      && (forall i :: 0 <= i < |connectors| ==> connectors[i].stationId in stations)
      && (forall i, j :: 0 <= i < j < |connectors| ==> connectors[i].id != connectors[j].id)
    }
  }

  datatype Summary = Summary(id: Id, status: Status, distanceMeters: real, rest: string)

  datatype Detail = Detail(id: Id, status: Status, connectors: seq<ConnectorRow>, distanceMeters: Option<real>,
                           rest: string)

  /** A station that a query may list, as the query orders it. */
  datatype Candidate = Candidate(status: Status, distanceMeters: real, score: real)

  /** What the database computes from the columns that nothing here writes: how far a station is from a place,
      whether and how well its texts match a query, the ranking and cutting off of the candidates of the two
      queries, and the assembly of one detail payload. */
  datatype Sql = Sql(distance: (Id, real, real) -> real,
                     matches: (string, Id) -> bool,
                     score: (string, Id) -> real,
                     nearest: (map<Id, Candidate>, nat) -> seq<Summary>,
                     similar: (string, map<Id, Candidate>, nat) -> seq<Summary>,
                     assemble: (Id, StationRow, Status, seq<ConnectorRow>, Option<(real, real)>) -> Detail)

  // ----- the direct queries -----

  function ConnectorsOf(connectors: seq<ConnectorRow>, stationId: Id): (r: seq<ConnectorRow>)
    ensures forall i :: 0 <= i < |r| ==> r[i] in connectors && r[i].stationId == stationId
  {
    if connectors == [] then []
    else
      var rest := ConnectorsOf(connectors[1..], stationId);
      if connectors[0].stationId == stationId then [connectors[0]] + rest else rest
  }

  function StatusesOf(connectors: seq<ConnectorRow>): seq<Status> {
    if connectors == [] then [] else [connectors[0].status] + StatusesOf(connectors[1..])
  }

  function AggregateOf(db: Database, stationId: Id): Status {
    AggregateSql(StatusesOf(ConnectorsOf(db.connectors, stationId)))
  }

  function FractionValue(digits: string): real {
    if digits == "" then 0.0 else ((digits[0] as int - '0' as int) as real + FractionValue(digits[1..])) / 10.0
  }

  function DecimalValue(d: Decimal): real {
    d.whole as real + FractionValue(d.fraction)
  }

  predicate ConnectorMatches(c: ConnectorRow, types: seq<ConnectorType>, minimumPower: Option<Decimal>) {
    (types == [] || c.connectorType in types) && (minimumPower.None? || c.powerKw >= DecimalValue(minimumPower.value))
  }

  /** No type and no power filter lets every station pass, even one without connectors. */
  predicate PassesConnectorFilter(db: Database, stationId: Id, types: seq<ConnectorType>, minimumPower: Option<Decimal>)
  {
    || (types == [] && minimumPower.None?)
    || exists i | 0 <= i < |db.connectors| && db.connectors[i].stationId == stationId ::
         ConnectorMatches(db.connectors[i], types, minimumPower)
  }

  predicate PassesFilters(db: Database, stationId: Id, r: NearbyRequest)
    requires stationId in db.stations
  {
    && PassesConnectorFilter(db, stationId, OrEmpty(r.connectorTypes), r.minimumPowerKw)
    && (OrEmpty(r.availabilityStatuses) == [] || AggregateOf(db, stationId) in OrEmpty(r.availabilityStatuses))
    && (OrEmpty(r.operatorIds) == [] || db.stations[stationId].operatorId in OrEmpty(r.operatorIds))
  }

  function Eligible(db: Database, r: NearbyRequest): map<Id, Status> {
    map id | id in db.stations && PassesFilters(db, id, r) :: AggregateOf(db, id)
  }

  function RadiusOf(r: NearbyRequest): nat {
    OrDefault(r.radiusMeters, DEFAULT_NEARBY_RADIUS_METERS)
  }

  function LimitOf(r: NearbyRequest): nat {
    OrDefault(r.limit, DEFAULT_NEARBY_LIMIT)
  }

  /** The eligible stations within the radius; all match equally well. */
  function Around(sql: Sql, db: Database, r: NearbyRequest): map<Id, Candidate> {
    map id | id in Eligible(db, r) && sql.distance(id, r.latitude, r.longitude) <= RadiusOf(r) as real ::
      Candidate(Eligible(db, r)[id], sql.distance(id, r.latitude, r.longitude), 0.0)
  }

  function DirectNearby(sql: Sql, db: Database, r: NearbyRequest): seq<Summary> {
    sql.nearest(Around(sql, db, r), LimitOf(r))
  }

  /** Runs of white space become one space. */
  function Collapse(isSpace: char -> bool, text: string): string {
    if text == "" then ""
    else if isSpace(text[0]) then
      var rest := Collapse(isSpace, text[1..]);
      if rest != "" && rest[0] == ' ' && isSpace(text[1]) then rest else " " + rest
    else [text[0]] + Collapse(isSpace, text[1..])
  }

  function NormalizeQuery(isSpace: char -> bool, query: string): string {
    Collapse(isSpace, Trim(isSpace, query))
  }

  /** The stations that match a text. */
  function Matching(sql: Sql, db: Database, query: string, latitude: real, longitude: real): map<Id, Candidate> {
    map id | id in db.stations && sql.matches(query, id) ::
      Candidate(AggregateOf(db, id), sql.distance(id, latitude, longitude), sql.score(query, id))
  }

  /** White space only between words, as single blanks. */
  predicate SingleBlanks(isSpace: char -> bool, text: string) {
    && Trimmed(isSpace, text)
    && forall i :: 0 < i < |text| && isSpace(text[i]) ==> text[i] == ' ' && !isSpace(text[i - 1])
  }

  /** The characters that are no white space, in order. */
  function Ink(isSpace: char -> bool): char -> bool {
    (c: char) => !isSpace(c)
  }

  lemma {:induction false} CollapseKeepsInk(isSpace: char -> bool, text: string)
    requires isSpace(' ')
    ensures Filter(Collapse(isSpace, text), Ink(isSpace)) == Filter(text, Ink(isSpace))
  {
    if text != "" {
      var rest := Collapse(isSpace, text[1..]);
      CollapseKeepsInk(isSpace, text[1..]);
      assert (" " + rest)[1..] == rest && ([text[0]] + rest)[1..] == rest;
    }
  }

  lemma {:induction false} CollapseShape(isSpace: char -> bool, text: string)
    requires isSpace(' ')
    ensures var r := Collapse(isSpace, text);
      && (r == "" <==> text == "")
      && (text != "" ==> r[0] == if isSpace(text[0]) then ' ' else text[0])
      && (text != "" ==> isSpace(r[|r| - 1]) == isSpace(text[|text| - 1]))
      && (forall i :: 0 < i < |r| && isSpace(r[i]) ==> r[i] == ' ' && !isSpace(r[i - 1]))
  {
    if text != "" {
      CollapseShape(isSpace, text[1..]);
    }
  }

  /** A word is kept as it is, and a gap behind it becomes one blank. */
  lemma {:induction false} CollapseKeepsWord(isSpace: char -> bool, word: string, rest: string)
    requires forall i :: 0 <= i < |word| ==> !isSpace(word[i])
    ensures Collapse(isSpace, word + rest) == word + Collapse(isSpace, rest)
  {
    if word == "" {
      assert word + rest == rest;
    } else {
      CollapseKeepsWord(isSpace, word[1..], rest);
      assert (word + rest)[1..] == word[1..] + rest;
      assert [word[0]] + (word[1..] + Collapse(isSpace, rest)) == word + Collapse(isSpace, rest);
    }
  }

  lemma {:induction false} CollapseClosesGap(isSpace: char -> bool, gap: string, rest: string)
    requires isSpace(' ') && gap != "" && AllSpace(isSpace, gap) && (rest != "" ==> !isSpace(rest[0]))
    ensures Collapse(isSpace, gap + rest) == " " + Collapse(isSpace, rest)
  {
    assert (gap + rest)[1..] == gap[1..] + rest;
    if |gap| > 1 {
      CollapseClosesGap(isSpace, gap[1..], rest);
    } else {
      assert gap[1..] + rest == rest;
      CollapseShape(isSpace, rest);
    }
  }

  /** What a search is normalised to: the same words with single blanks between them. */
  lemma NormalizedShape(isSpace: char -> bool, query: string)
    requires isSpace(' ')
    ensures SingleBlanks(isSpace, NormalizeQuery(isSpace, query))
    ensures Filter(NormalizeQuery(isSpace, query), Ink(isSpace)) == Filter(query, Ink(isSpace))
    ensures NormalizeQuery(isSpace, query) == "" <==> AllSpace(isSpace, query)
  {
    var before, after := TrimCutsSpace(isSpace, query);
    var text := Trim(isSpace, query);
    CollapseShape(isSpace, text);
    FilterConcat(before + text, after, Ink(isSpace));
    FilterConcat(before, text, Ink(isSpace));
    FilterNothing(before, Ink(isSpace));
    FilterNothing(after, Ink(isSpace));
    CollapseKeepsInk(isSpace, text);
    if text == "" {
      assert query == before + after;
    } else {
      assert query[|before|] == text[0];
    }
  }

  function DirectSearch(sql: Sql, isSpace: char -> bool, db: Database, r: SearchRequest): seq<Summary> {
    var query := NormalizeQuery(isSpace, r.query);
    if query == "" then []
    else sql.similar(query, Matching(sql, db, query, r.latitude, r.longitude), OrDefault(r.limit, DEFAULT_SEARCH_LIMIT))
  }

  datatype DetailQuery = DetailQuery(connectorTypes: Option<seq<ConnectorType>>, minimumPowerKw: Option<Decimal>,
                                     latitude: Option<real>, longitude: Option<real>) {
    predicate Cacheable() {
      OrEmpty(connectorTypes) == [] && minimumPowerKw.None? && latitude.None? && longitude.None?
    }
  }

  const PLAIN := DetailQuery(None, None, None, None)

  function FilterConnectors(connectors: seq<ConnectorRow>, types: seq<ConnectorType>, minimumPower: Option<Decimal>)
    : seq<ConnectorRow>
  {
    if connectors == [] then []
    else
      var rest := FilterConnectors(connectors[1..], types, minimumPower);
      if ConnectorMatches(connectors[0], types, minimumPower) then [connectors[0]] + rest else rest
  }

  /** None when there is no such station. A distance needs both coordinates. */
  function DirectDetail(sql: Sql, db: Database, stationId: Id, q: DetailQuery): Option<Detail> {
    if stationId !in db.stations then None
    else
      var own := ConnectorsOf(db.connectors, stationId);
      Some(sql.assemble(stationId, db.stations[stationId], AggregateOf(db, stationId),
                        FilterConnectors(own, OrEmpty(q.connectorTypes), q.minimumPowerKw),
                        if q.latitude.Some? && q.longitude.Some? then Some((q.latitude.value, q.longitude.value))
                        else None))
  }

  /** Equal queries let the same stations pass, whatever the order of their filter lists. */
  lemma SameQuerySameEligible(db: Database, a: NearbyRequest, b: NearbyRequest)
    requires SameNearbyQuery(a, b)
    ensures Eligible(db, a) == Eligible(db, b) && RadiusOf(a) == RadiusOf(b) && LimitOf(a) == LimitOf(b)
  {
    SameMembers(OrEmpty(a.connectorTypes), OrEmpty(b.connectorTypes));
    SameMembers(OrEmpty(a.availabilityStatuses), OrEmpty(b.availabilityStatuses));
    SameMembers(OrEmpty(a.operatorIds), OrEmpty(b.operatorIds));
    forall id | id in db.stations ensures PassesFilters(db, id, a) == PassesFilters(db, id, b) {
      assert forall c: ConnectorRow ::
        ConnectorMatches(c, OrEmpty(a.connectorTypes), a.minimumPowerKw)
          == ConnectorMatches(c, OrEmpty(b.connectorTypes), b.minimumPowerKw);
    }
    assert Eligible(db, a) == Eligible(db, b);
  }

  /** Equal queries from the same place have equal answers, whatever the order of their filter lists. */
  lemma SameNearbyQuerySameAnswer(sql: Sql, db: Database, a: NearbyRequest, b: NearbyRequest)
    requires SameNearbyQuery(a, b) && a.latitude == b.latitude && a.longitude == b.longitude
    ensures DirectNearby(sql, db, a) == DirectNearby(sql, db, b)
  {
    SameQuerySameEligible(db, a, b);
    assert Around(sql, db, a) == Around(sql, db, b);
  }

  lemma SameMembers<T>(a: seq<T>, b: seq<T>)
    requires multiset(a) == multiset(b)
    ensures a == [] <==> b == []
    ensures forall x :: x in a <==> x in b
  {
    assert |multiset(a)| == |a| && |multiset(b)| == |b|;
    assert forall x :: x in a <==> x in multiset(a);
    assert forall x :: x in b <==> x in multiset(b);
  }

  /** Requests whose coordinates the key does not round, with comma-free operator ids. */
  predicate Readable(r: NearbyRequest) {
    r.Valid() && SixDecimals(r.latitude) && SixDecimals(r.longitude)
  }

  predicate ReadableSearch(r: SearchRequest) {
    SixDecimals(r.latitude) && SixDecimals(r.longitude)
  }

  // ----- the cache -----

  const STATION_NEARBY_KEY_PREFIX := "station:nearby:"
  const STATION_SEARCH_KEY_PREFIX := "station:search:"
  const STATION_DETAIL_KEY_PREFIX := "station:detail:"
  const CONNECTOR_STATUS_KEY_PREFIX := "connector:status:"

  datatype Cached = Summaries(list: seq<Summary>) | OneDetail(detail: Detail) | OneConnector(connector: ConnectorRow)

  type Store = map<string, Cached>

  /** What invalidating one station leaves: all nearby and search results go, and its own detail. */
  function Invalidated(store: Store, stationId: Id): Store {
    map k | k in store && k != STATION_DETAIL_KEY_PREFIX + stationId
            && !(STATION_NEARBY_KEY_PREFIX <= k) && !(STATION_SEARCH_KEY_PREFIX <= k) :: store[k]
  }

  datatype State = State(db: Database, store: Store)

  /** A failed read counts as a miss and a failed write as nothing, as the cache service swallows both. */
  function Lookup(store: Store, key: string, getWorks: bool): Option<Cached> {
    if getWorks && key in store then Some(store[key]) else None
  }

  function Put(store: Store, key: string, value: Cached, setWorks: bool): Store {
    if setWorks then store[key := value] else store
  }

  function ReadNearby(sql: Sql, s: State, r: NearbyRequest, getWorks: bool, setWorks: bool): (State, seq<Summary>) {
    var key := STATION_NEARBY_KEY_PREFIX + NearbyKey(r);
    var cached := Lookup(s.store, key, getWorks);
    if cached.Some? && cached.value.Summaries? then (s, cached.value.list)
    else
      var results := DirectNearby(sql, s.db, r);
      (s.(store := Put(s.store, key, Summaries(results), setWorks)), results)
  }

  function ReadSearch(sql: Sql, isSpace: char -> bool, s: State, r: SearchRequest, getWorks: bool, setWorks: bool)
    : (State, seq<Summary>)
  {
    var query := NormalizeQuery(isSpace, r.query);
    if query == "" then (s, [])
    else
      var key := STATION_SEARCH_KEY_PREFIX + SearchKey(r, query);
      var cached := Lookup(s.store, key, getWorks);
      if cached.Some? && cached.value.Summaries? then (s, cached.value.list)
      else
        var results := DirectSearch(sql, isSpace, s.db, r);
        (s.(store := Put(s.store, key, Summaries(results), setWorks)), results)
  }

  /** A missing station is an error and is not cached. */
  function ReadDetail(sql: Sql, s: State, stationId: Id, q: DetailQuery, getWorks: bool, setWorks: bool)
    : (State, Option<Detail>)
  {
    var key := STATION_DETAIL_KEY_PREFIX + stationId;
    var cached := if q.Cacheable() then Lookup(s.store, key, getWorks) else None;
    if cached.Some? && cached.value.OneDetail? then (s, Some(cached.value.detail))
    else
      var found := DirectDetail(sql, s.db, stationId, q);
      (if found.Some? && q.Cacheable() then s.(store := Put(s.store, key, OneDetail(found.value), setWorks))
       else s, found)
  }

  function ConnectorIndex(connectors: seq<ConnectorRow>, id: Id): (i: nat)
    ensures i <= |connectors|
    ensures i < |connectors| ==> connectors[i].id == id
  {
    if connectors == [] || connectors[0].id == id then 0 else 1 + ConnectorIndex(connectors[1..], id)
  }

  /** The database after one connector changes state: its row, and its station's aggregate state. */
  function UpdatedDatabase(db: Database, i: nat, status: Status, at: int, now: int): (r: Database)
    requires i < |db.connectors| && db.connectors[i].stationId in db.stations
    ensures db.Valid() ==> r.Valid()
  {
    var stationId := db.connectors[i].stationId;
    var connectors := db.connectors[i := db.connectors[i].(status := status, lastStatusUpdate := at)];
    var aggregate := Aggregate(StatusesOf(ConnectorsOf(connectors, stationId)));
    Database(db.stations[stationId := db.stations[stationId].(status := aggregate, updatedAt := now)], connectors)
  }

  /** None when there is no such connector. */
  function UpdateConnector(s: State, connectorId: Id, status: Status, at: int, now: int, setWorks: bool)
    : (r: (State, Option<ConnectorRow>))
    requires s.db.Valid()
    ensures r.0.db.Valid()
  {
    var i := ConnectorIndex(s.db.connectors, connectorId);
    if i == |s.db.connectors| then (s, None)
    else
      var db := UpdatedDatabase(s.db, i, status, at, now);
      var stored := Put(s.store, CONNECTOR_STATUS_KEY_PREFIX + connectorId, OneConnector(db.connectors[i]), setWorks);
      (State(db, Invalidated(stored, s.db.connectors[i].stationId)), Some(db.connectors[i]))
  }

  // ----- coherence -----

  ghost predicate NearbyCoherent(sql: Sql, s: State) {
    forall r: NearbyRequest :: Readable(r) && STATION_NEARBY_KEY_PREFIX + NearbyKey(r) in s.store ==>
      s.store[STATION_NEARBY_KEY_PREFIX + NearbyKey(r)] == Summaries(DirectNearby(sql, s.db, r))
  }

  ghost predicate SearchCoherent(sql: Sql, isSpace: char -> bool, s: State) {
    forall r: SearchRequest ::
      var query := NormalizeQuery(isSpace, r.query);
      ReadableSearch(r) && query != "" && STATION_SEARCH_KEY_PREFIX + SearchKey(r, query) in s.store ==>
      s.store[STATION_SEARCH_KEY_PREFIX + SearchKey(r, query)] == Summaries(DirectSearch(sql, isSpace, s.db, r))
  }

  ghost predicate DetailCoherent(sql: Sql, s: State) {
    forall id: Id :: STATION_DETAIL_KEY_PREFIX + id in s.store ==>
      id in s.db.stations
        && s.store[STATION_DETAIL_KEY_PREFIX + id] == OneDetail(DirectDetail(sql, s.db, id, PLAIN).value)
  }

  /** Every cached result is what the direct query would return now. */
  ghost predicate Coherent(sql: Sql, isSpace: char -> bool, s: State) {
    s.db.Valid() && NearbyCoherent(sql, s) && SearchCoherent(sql, isSpace, s) && DetailCoherent(sql, s)
  }

  lemma PrefixesDiffer(a: string, b: string)
    ensures STATION_NEARBY_KEY_PREFIX + a != STATION_SEARCH_KEY_PREFIX + b
    ensures STATION_NEARBY_KEY_PREFIX + a != STATION_DETAIL_KEY_PREFIX + b
    ensures STATION_SEARCH_KEY_PREFIX + a != STATION_DETAIL_KEY_PREFIX + b
    ensures CONNECTOR_STATUS_KEY_PREFIX + a != STATION_DETAIL_KEY_PREFIX + b
  {
    assert (STATION_NEARBY_KEY_PREFIX + a)[8] == 'n';
    assert (STATION_SEARCH_KEY_PREFIX + a)[8] == 's' && (STATION_SEARCH_KEY_PREFIX + b)[8] == 's';
    assert (STATION_DETAIL_KEY_PREFIX + b)[8] == 'd' && (STATION_DETAIL_KEY_PREFIX + b)[0] == 's';
    assert (CONNECTOR_STATUS_KEY_PREFIX + a)[0] == 'c';
  }

  lemma ReadNearbyIsFresh(sql: Sql, isSpace: char -> bool, s: State, r: NearbyRequest, getWorks: bool, setWorks: bool)
    requires Coherent(sql, isSpace, s) && Readable(r)
    ensures var (s', answer) := ReadNearby(sql, s, r, getWorks, setWorks);
      answer == DirectNearby(sql, s.db, r) && Coherent(sql, isSpace, s')
  {
    if ReadNearby(sql, s, r, getWorks, setWorks).0 != s {
      NearbyEntryIsRight(sql, s, r);
      NearbyEntryIsApart(sql, isSpace, s, NearbyKey(r), Summaries(DirectNearby(sql, s.db, r)));
    }
  }

  /** Storing a direct answer under its key is right for every other query with that key. */
  lemma NearbyEntryIsRight(sql: Sql, s: State, r: NearbyRequest)
    requires NearbyCoherent(sql, s) && Readable(r)
    ensures var key, results := STATION_NEARBY_KEY_PREFIX + NearbyKey(r), DirectNearby(sql, s.db, r);
      NearbyCoherent(sql, s.(store := s.store[key := Summaries(results)]))
  {
    var key := STATION_NEARBY_KEY_PREFIX + NearbyKey(r);
    var s' := s.(store := s.store[key := Summaries(DirectNearby(sql, s.db, r))]);
    forall q: NearbyRequest | Readable(q) && STATION_NEARBY_KEY_PREFIX + NearbyKey(q) in s'.store
      ensures s'.store[STATION_NEARBY_KEY_PREFIX + NearbyKey(q)] == Summaries(DirectNearby(sql, s.db, q))
    {
      if STATION_NEARBY_KEY_PREFIX + NearbyKey(q) == key {
        SameNearbyKeySameAnswer(sql, s.db, q, r);
      }
    }
  }

  lemma SameNearbyKeySameAnswer(sql: Sql, db: Database, a: NearbyRequest, b: NearbyRequest)
    requires Readable(a) && Readable(b)
    requires STATION_NEARBY_KEY_PREFIX + NearbyKey(a) == STATION_NEARBY_KEY_PREFIX + NearbyKey(b)
    ensures DirectNearby(sql, db, a) == DirectNearby(sql, db, b)
  {
    SameTail(STATION_NEARBY_KEY_PREFIX, NearbyKey(a), NearbyKey(b));
    NearbyKeysEqualExactlyForSameQuery(a, b);
    SixDecimalsAreExact(a.latitude, b.latitude);
    SixDecimalsAreExact(a.longitude, b.longitude);
    SameNearbyQuerySameAnswer(sql, db, a, b);
  }

  /** A nearby entry is neither a search nor a detail entry. */
  lemma NearbyEntryIsApart(sql: Sql, isSpace: char -> bool, s: State, key: string, value: Cached)
    requires SearchCoherent(sql, isSpace, s) && DetailCoherent(sql, s)
    ensures var s' := s.(store := s.store[STATION_NEARBY_KEY_PREFIX + key := value]);
      SearchCoherent(sql, isSpace, s') && DetailCoherent(sql, s')
  {
    forall x: string ensures STATION_SEARCH_KEY_PREFIX + x != STATION_NEARBY_KEY_PREFIX + key {
      PrefixesDiffer(key, x);
    }
    forall x: string ensures STATION_DETAIL_KEY_PREFIX + x != STATION_NEARBY_KEY_PREFIX + key {
      PrefixesDiffer(key, x);
    }
  }

  lemma ReadSearchIsFresh(sql: Sql, isSpace: char -> bool, s: State, r: SearchRequest, getWorks: bool, setWorks: bool)
    requires Coherent(sql, isSpace, s) && ReadableSearch(r)
    ensures var (s', answer) := ReadSearch(sql, isSpace, s, r, getWorks, setWorks);
      answer == DirectSearch(sql, isSpace, s.db, r) && Coherent(sql, isSpace, s')
  {
    var s' := ReadSearch(sql, isSpace, s, r, getWorks, setWorks).0;
    var query := NormalizeQuery(isSpace, r.query);
    if s' != s {
      SearchEntryIsRight(sql, isSpace, s, r);
      SearchEntryIsApart(sql, s, SearchKey(r, query), Summaries(DirectSearch(sql, isSpace, s.db, r)));
    }
  }

  /** Storing a direct answer under its key is right for every other query with that key. */
  lemma SearchEntryIsRight(sql: Sql, isSpace: char -> bool, s: State, r: SearchRequest)
    requires SearchCoherent(sql, isSpace, s) && ReadableSearch(r) && NormalizeQuery(isSpace, r.query) != ""
    ensures var key := STATION_SEARCH_KEY_PREFIX + SearchKey(r, NormalizeQuery(isSpace, r.query));
      SearchCoherent(sql, isSpace, s.(store := s.store[key := Summaries(DirectSearch(sql, isSpace, s.db, r))]))
  {
    var query := NormalizeQuery(isSpace, r.query);
    var key := STATION_SEARCH_KEY_PREFIX + SearchKey(r, query);
    var s' := s.(store := s.store[key := Summaries(DirectSearch(sql, isSpace, s.db, r))]);
    forall q: SearchRequest | ReadableSearch(q) && NormalizeQuery(isSpace, q.query) != ""
        && STATION_SEARCH_KEY_PREFIX + SearchKey(q, NormalizeQuery(isSpace, q.query)) in s'.store
      ensures s'.store[STATION_SEARCH_KEY_PREFIX + SearchKey(q, NormalizeQuery(isSpace, q.query))]
           == Summaries(DirectSearch(sql, isSpace, s.db, q))
    {
      if STATION_SEARCH_KEY_PREFIX + SearchKey(q, NormalizeQuery(isSpace, q.query)) == key {
        SameSearchSameAnswer(sql, isSpace, s.db, q, r);
      }
    }
  }

  lemma SameSearchSameAnswer(sql: Sql, isSpace: char -> bool, db: Database, a: SearchRequest, b: SearchRequest)
    requires ReadableSearch(a) && ReadableSearch(b)
    requires STATION_SEARCH_KEY_PREFIX + SearchKey(a, NormalizeQuery(isSpace, a.query))
          == STATION_SEARCH_KEY_PREFIX + SearchKey(b, NormalizeQuery(isSpace, b.query))
    ensures DirectSearch(sql, isSpace, db, a) == DirectSearch(sql, isSpace, db, b)
  {
    var p, q := NormalizeQuery(isSpace, a.query), NormalizeQuery(isSpace, b.query);
    SameTail(STATION_SEARCH_KEY_PREFIX, SearchKey(a, p), SearchKey(b, q));
    SearchKeysEqualExactlyForSameQuery(a, p, b, q);
    SixDecimalsAreExact(a.latitude, b.latitude);
    SixDecimalsAreExact(a.longitude, b.longitude);
  }

  /** A search entry is neither a nearby nor a detail entry. */
  lemma SearchEntryIsApart(sql: Sql, s: State, key: string, value: Cached)
    requires NearbyCoherent(sql, s) && DetailCoherent(sql, s)
    ensures var s' := s.(store := s.store[STATION_SEARCH_KEY_PREFIX + key := value]);
      NearbyCoherent(sql, s') && DetailCoherent(sql, s')
  {
    forall x: string ensures STATION_NEARBY_KEY_PREFIX + x != STATION_SEARCH_KEY_PREFIX + key {
      PrefixesDiffer(x, key);
    }
    forall x: string ensures STATION_DETAIL_KEY_PREFIX + x != STATION_SEARCH_KEY_PREFIX + key {
      PrefixesDiffer(key, x);
    }
  }

  lemma CacheableIsPlain(sql: Sql, db: Database, stationId: Id, q: DetailQuery)
    requires q.Cacheable()
    ensures DirectDetail(sql, db, stationId, q) == DirectDetail(sql, db, stationId, PLAIN)
  {}

  lemma ReadDetailIsFresh(sql: Sql, isSpace: char -> bool, s: State, stationId: Id, q: DetailQuery, getWorks: bool,
                          setWorks: bool)
    requires Coherent(sql, isSpace, s)
    ensures var (s', answer) := ReadDetail(sql, s, stationId, q, getWorks, setWorks);
      answer == DirectDetail(sql, s.db, stationId, q) && Coherent(sql, isSpace, s')
  {
    if q.Cacheable() {
      CacheableIsPlain(sql, s.db, stationId, q);
      if ReadDetail(sql, s, stationId, q, getWorks, setWorks).0 != s {
        DetailEntryIsRight(sql, s, stationId);
        DetailEntryIsApart(sql, isSpace, s, stationId, OneDetail(DirectDetail(sql, s.db, stationId, PLAIN).value));
      }
    }
  }

  lemma DetailEntryIsRight(sql: Sql, s: State, stationId: Id)
    requires DetailCoherent(sql, s) && stationId in s.db.stations
    ensures DetailCoherent(sql, s.(store := s.store[STATION_DETAIL_KEY_PREFIX + stationId
                                                    := OneDetail(DirectDetail(sql, s.db, stationId, PLAIN).value)]))
  {
    forall id: Id | STATION_DETAIL_KEY_PREFIX + id == STATION_DETAIL_KEY_PREFIX + stationId ensures id == stationId {
      SameTail(STATION_DETAIL_KEY_PREFIX, id, stationId);
    }
  }

  lemma DetailEntryIsApart(sql: Sql, isSpace: char -> bool, s: State, stationId: Id, value: Cached)
    requires NearbyCoherent(sql, s) && SearchCoherent(sql, isSpace, s)
    ensures var s' := s.(store := s.store[STATION_DETAIL_KEY_PREFIX + stationId := value]);
      NearbyCoherent(sql, s') && SearchCoherent(sql, isSpace, s')
  {
    forall x: string ensures STATION_NEARBY_KEY_PREFIX + x != STATION_DETAIL_KEY_PREFIX + stationId {
      PrefixesDiffer(x, stationId);
    }
    forall x: string ensures STATION_SEARCH_KEY_PREFIX + x != STATION_DETAIL_KEY_PREFIX + stationId {
      PrefixesDiffer(x, stationId);
    }
  }

  // ----- connector updates -----

  lemma {:induction false} OtherStationsKeepConnectors(connectors: seq<ConnectorRow>, i: nat, row: ConnectorRow,
                                                       stationId: Id)
    requires i < |connectors| && row.stationId == connectors[i].stationId && row.stationId != stationId
    ensures ConnectorsOf(connectors[i := row], stationId) == ConnectorsOf(connectors, stationId)
  {
    var updated := connectors[i := row];
    if i == 0 {
      assert updated[1..] == connectors[1..];
    } else {
      OtherStationsKeepConnectors(connectors[1..], i - 1, row, stationId);
      assert updated[1..] == connectors[1..][i - 1 := row];
    }
  }

  lemma UpdateKeepsOtherDetails(sql: Sql, db: Database, i: nat, status: Status, at: int, now: int, id: Id)
    requires db.Valid() && i < |db.connectors| && id in db.stations && id != db.connectors[i].stationId
    ensures DirectDetail(sql, UpdatedDatabase(db, i, status, at, now), id, PLAIN) == DirectDetail(sql, db, id, PLAIN)
  {
    OtherStationsKeepConnectors(db.connectors, i, db.connectors[i].(status := status, lastStatusUpdate := at), id);
  }

  lemma NoSummariesLeft(store: Store, stationId: Id)
    ensures forall x: string :: STATION_NEARBY_KEY_PREFIX + x !in Invalidated(store, stationId)
    ensures forall x: string :: STATION_SEARCH_KEY_PREFIX + x !in Invalidated(store, stationId)
  {
    assert forall x: string :: STATION_NEARBY_KEY_PREFIX <= STATION_NEARBY_KEY_PREFIX + x;
    assert forall x: string :: STATION_SEARCH_KEY_PREFIX <= STATION_SEARCH_KEY_PREFIX + x;
  }

  lemma UpdateKeepsDetails(sql: Sql, s: State, connectorId: Id, status: Status, at: int, now: int, setWorks: bool)
    requires s.db.Valid() && DetailCoherent(sql, s)
    ensures DetailCoherent(sql, UpdateConnector(s, connectorId, status, at, now, setWorks).0)
  {
    var i := ConnectorIndex(s.db.connectors, connectorId);
    if i < |s.db.connectors| {
      var s' := UpdateConnector(s, connectorId, status, at, now, setWorks).0;
      forall id: Id | STATION_DETAIL_KEY_PREFIX + id in s'.store
        ensures id in s'.db.stations
        ensures s'.store[STATION_DETAIL_KEY_PREFIX + id] == OneDetail(DirectDetail(sql, s'.db, id, PLAIN).value)
      {
        PrefixesDiffer(connectorId, id);
        assert STATION_DETAIL_KEY_PREFIX + id in s.store;
        UpdateKeepsOtherDetails(sql, s.db, i, status, at, now, id);
      }
    }
  }

  /** After an update nothing cached speaks of the old state, although only one station's detail was dropped. */
  lemma UpdateKeepsCoherence(sql: Sql, isSpace: char -> bool, s: State, connectorId: Id, status: Status, at: int,
                             now: int, setWorks: bool)
    requires Coherent(sql, isSpace, s)
    ensures Coherent(sql, isSpace, UpdateConnector(s, connectorId, status, at, now, setWorks).0)
  {
    UpdateKeepsDetails(sql, s, connectorId, status, at, now, setWorks);
    var i := ConnectorIndex(s.db.connectors, connectorId);
    if i < |s.db.connectors| {
      var s' := UpdateConnector(s, connectorId, status, at, now, setWorks).0;
      var key, row := CONNECTOR_STATUS_KEY_PREFIX + connectorId, s'.db.connectors[i];
      var stored := Put(s.store, key, OneConnector(row), setWorks);
      NoSummariesLeft(stored, s.db.connectors[i].stationId);
      assert NearbyCoherent(sql, s') && SearchCoherent(sql, isSpace, s');
    }
  }

  /** The station column that an update leaves behind is the aggregate that every query computes. */
  lemma UpdatePersistsAggregate(s: State, connectorId: Id, status: Status, at: int, now: int, setWorks: bool)
    requires s.db.Valid()
    ensures var (s', answer) := UpdateConnector(s, connectorId, status, at, now, setWorks);
      if answer.None? then s' == s && forall c :: c in s.db.connectors ==> c.id != connectorId
      else
        && answer.value in s'.db.connectors && answer.value.id == connectorId && answer.value.status == status
        && answer.value.stationId in s'.db.stations && answer.value.stationId in s.db.stations
        && s'.db.stations[answer.value.stationId]
           == s.db.stations[answer.value.stationId].(status := AggregateOf(s'.db, answer.value.stationId),
                                                     updatedAt := now)
        && forall id :: id in s.db.stations && id != answer.value.stationId ==>
             id in s'.db.stations && s'.db.stations[id] == s.db.stations[id]
               && AggregateOf(s'.db, id) == AggregateOf(s.db, id)
  {
    var i := ConnectorIndex(s.db.connectors, connectorId);
    if i == |s.db.connectors| {
      NoSuchConnector(s.db.connectors, connectorId);
    } else {
      var (s', answer) := UpdateConnector(s, connectorId, status, at, now, setWorks);
      SqlAgreesWithLoop(StatusesOf(ConnectorsOf(s'.db.connectors, answer.value.stationId)));
      assert s'.db.connectors[i] == answer.value;
      forall id | id in s.db.stations && id != answer.value.stationId
        ensures AggregateOf(s'.db, id) == AggregateOf(s.db, id)
      {
        OtherStationsKeepConnectors(s.db.connectors, i, s'.db.connectors[i], id);
      }
    }
  }

  /** Of the connectors, the update writes the state and the instant of one row, and it caches that row. */
  lemma UpdateWritesOneConnector(s: State, connectorId: Id, status: Status, at: int, now: int, setWorks: bool)
    requires s.db.Valid()
    ensures var (s', answer) := UpdateConnector(s, connectorId, status, at, now, setWorks);
      && (answer.Some? <==> exists c :: c in s.db.connectors && c.id == connectorId)
      && (answer.Some? ==>
           && (exists c :: c in s.db.connectors && answer.value == c.(status := status, lastStatusUpdate := at))
           && (forall c: ConnectorRow :: c.id != connectorId ==> (c in s.db.connectors <==> c in s'.db.connectors))
           && (setWorks ==> "connector:status:" + connectorId in s'.store
                            && s'.store["connector:status:" + connectorId] == OneConnector(answer.value)))
  {
    var i := ConnectorIndex(s.db.connectors, connectorId);
    if i == |s.db.connectors| {
      NoSuchConnector(s.db.connectors, connectorId);
    } else {
      var c := s.db.connectors[i];
      assert c in s.db.connectors;
      OtherRowsStay(s.db.connectors, i, c.(status := status, lastStatusUpdate := at));
      var key := CONNECTOR_STATUS_KEY_PREFIX + connectorId;
      PrefixesDiffer(connectorId, c.stationId);
      assert key[0] == 'c' && STATION_NEARBY_KEY_PREFIX[0] == 's' && STATION_SEARCH_KEY_PREFIX[0] == 's';
    }
  }

  lemma OtherRowsStay(connectors: seq<ConnectorRow>, i: nat, row: ConnectorRow)
    requires i < |connectors| && row.id == connectors[i].id
    ensures forall c: ConnectorRow :: c.id != row.id ==> (c in connectors <==> c in connectors[i := row])
  {
    forall c: ConnectorRow | c.id != row.id ensures c in connectors <==> c in connectors[i := row] {
      if c in connectors {
        var k :| 0 <= k < |connectors| && connectors[k] == c;
        assert connectors[i := row][k] == c;
      }
    }
  }

  lemma NoSuchConnector(connectors: seq<ConnectorRow>, id: Id)
    requires ConnectorIndex(connectors, id) == |connectors|
    ensures forall c :: c in connectors ==> c.id != id
  {
    if connectors != [] {
      NoSuchConnector(connectors[1..], id);
    }
  }

  // ----- runs -----

  datatype Event =
    | Nearby(nearby: NearbyRequest, getWorks: bool, setWorks: bool)
    | Search(search: SearchRequest, getWorks: bool, setWorks: bool)
    | OneStation(stationId: Id, query: DetailQuery, getWorks: bool, setWorks: bool)
    | Update(connectorId: Id, status: Status, at: int, now: int, setWorks: bool)
    | Expire(keys: set<string>)

  datatype Answer =
    | Stations(list: seq<Summary>)
    | Station(detail: Option<Detail>)
    | Connector(row: Option<ConnectorRow>)
    | Nothing

  predicate EventReadable(e: Event) {
    match e
    case Nearby(r, _, _) => Readable(r)
    case Search(r, _, _) => ReadableSearch(r)
    case _ => true
  }

  function Step(sql: Sql, isSpace: char -> bool, s: State, e: Event): (r: (State, Answer))
    requires s.db.Valid()
    ensures r.0.db.Valid()
  {
    match e
    case Nearby(r, getWorks, setWorks) =>
      var (s', list) := ReadNearby(sql, s, r, getWorks, setWorks);
      (s', Stations(list))
    case Search(r, getWorks, setWorks) =>
      var (s', list) := ReadSearch(sql, isSpace, s, r, getWorks, setWorks);
      (s', Stations(list))
    case OneStation(id, q, getWorks, setWorks) =>
      var (s', detail) := ReadDetail(sql, s, id, q, getWorks, setWorks);
      (s', Station(detail))
    case Update(id, status, at, now, setWorks) =>
      var (s', row) := UpdateConnector(s, id, status, at, now, setWorks);
      (s', Connector(row))
    case Expire(keys) => (s.(store := s.store - keys), Nothing)
  }

  /** What a read would return if it asked the database directly. */
  function Direct(sql: Sql, isSpace: char -> bool, db: Database, e: Event): Answer
    requires e.Nearby? || e.Search? || e.OneStation?
  {
    match e
    case Nearby(r, _, _) => Stations(DirectNearby(sql, db, r))
    case Search(r, _, _) => Stations(DirectSearch(sql, isSpace, db, r))
    case OneStation(id, q, _, _) => Station(DirectDetail(sql, db, id, q))
  }

  lemma StepKeepsCoherence(sql: Sql, isSpace: char -> bool, s: State, e: Event)
    requires Coherent(sql, isSpace, s) && EventReadable(e)
    ensures Coherent(sql, isSpace, Step(sql, isSpace, s, e).0)
    ensures e.Nearby? || e.Search? || e.OneStation? ==> Step(sql, isSpace, s, e).1 == Direct(sql, isSpace, s.db, e)
  {
    match e
    case Nearby(r, getWorks, setWorks) => ReadNearbyIsFresh(sql, isSpace, s, r, getWorks, setWorks);
    case Search(r, getWorks, setWorks) => ReadSearchIsFresh(sql, isSpace, s, r, getWorks, setWorks);
    case OneStation(id, q, getWorks, setWorks) => ReadDetailIsFresh(sql, isSpace, s, id, q, getWorks, setWorks);
    case Update(id, status, at, now, setWorks) => UpdateKeepsCoherence(sql, isSpace, s, id, status, at, now, setWorks);
    case Expire(keys) => ExpiryKeepsCoherence(sql, isSpace, s, keys);
  }

  lemma ExpiryKeepsCoherence(sql: Sql, isSpace: char -> bool, s: State, keys: set<string>)
    requires Coherent(sql, isSpace, s)
    ensures Coherent(sql, isSpace, s.(store := s.store - keys))
  {}

  function Run(sql: Sql, isSpace: char -> bool, s: State, events: seq<Event>): (r: State)
    requires s.db.Valid()
    ensures r.db.Valid()
  {
    if events == [] then s
    else
      var last := |events| - 1;
      Step(sql, isSpace, Run(sql, isSpace, s, events[..last]), events[last]).0
  }

  lemma RunOneMore(sql: Sql, isSpace: char -> bool, s: State, events: seq<Event>)
    requires s.db.Valid() && events != []
    ensures var last := |events| - 1;
      Run(sql, isSpace, s, events) == Step(sql, isSpace, Run(sql, isSpace, s, events[..last]), events[last]).0
  {}

  lemma {:induction false} RunKeepsCoherence(sql: Sql, isSpace: char -> bool, s: State, events: seq<Event>)
    requires Coherent(sql, isSpace, s)
    requires forall k :: 0 <= k < |events| ==> EventReadable(events[k])
    ensures Coherent(sql, isSpace, Run(sql, isSpace, s, events))
  {
    if events == [] {
      assert Run(sql, isSpace, s, events) == s;
    } else {
      var before, last := events[..|events| - 1], events[|events| - 1];
      RunKeepsCoherence(sql, isSpace, s, before);
      var middle := Run(sql, isSpace, s, before);
      StepKeepsCoherence(sql, isSpace, middle, last);
      RunOneMore(sql, isSpace, s, events);
      var after := Step(sql, isSpace, middle, last).0;
      assert Coherent(sql, isSpace, after);
      assert Run(sql, isSpace, s, events) == after;
    }
  }

  /** A detail query with any filter or coordinate. */
  predicate AsksForMore(q: DetailQuery) {
    || (q.connectorTypes != None && q.connectorTypes != Some([])) || q.minimumPowerKw != None
    || q.latitude != None || q.longitude != None
  }

  /** A read is answered from its entry, and changes nothing, when there is one and the cache can be read; when the
      cache cannot be read, the database is asked. */
  lemma NearbyHitAnswers(sql: Sql, s: State, r: NearbyRequest, list: seq<Summary>, setWorks: bool)
    ensures var key := "station:nearby:" + NearbyKey(r);
      key in s.store && s.store[key] == Summaries(list) ==> ReadNearby(sql, s, r, true, setWorks) == (s, list)
    ensures ReadNearby(sql, s, r, false, setWorks).1 == DirectNearby(sql, s.db, r)
  {}

  lemma SearchHitAnswers(sql: Sql, isSpace: char -> bool, s: State, r: SearchRequest, list: seq<Summary>,
                         setWorks: bool)
    ensures var query := NormalizeQuery(isSpace, r.query);
      var key := "station:search:" + SearchKey(r, query);
      query != "" && key in s.store && s.store[key] == Summaries(list) ==>
        ReadSearch(sql, isSpace, s, r, true, setWorks) == (s, list)
    ensures ReadSearch(sql, isSpace, s, r, false, setWorks).1 == DirectSearch(sql, isSpace, s.db, r)
  {}

  lemma DetailHitAnswers(sql: Sql, s: State, id: Id, detail: Detail, setWorks: bool)
    ensures var key := "station:detail:" + id;
      key in s.store && s.store[key] == OneDetail(detail) ==>
        ReadDetail(sql, s, id, PLAIN, true, setWorks) == (s, Some(detail))
    ensures ReadDetail(sql, s, id, PLAIN, false, setWorks).1 == DirectDetail(sql, s.db, id, PLAIN)
  {}

  /** What was read can be read again from the cache: a read whose write works leaves its answer under its key. */
  lemma NearbyReadIsStored(sql: Sql, s: State, r: NearbyRequest, getWorks: bool)
    ensures var (s', answer) := ReadNearby(sql, s, r, getWorks, true);
      var key := "station:nearby:" + NearbyKey(r);
      key in s'.store && s'.store[key] == Summaries(answer)
  {}

  lemma SearchReadIsStored(sql: Sql, isSpace: char -> bool, s: State, r: SearchRequest, getWorks: bool)
    ensures var (s', answer) := ReadSearch(sql, isSpace, s, r, getWorks, true);
      var query := NormalizeQuery(isSpace, r.query);
      var key := "station:search:" + SearchKey(r, query);
      query != "" ==> key in s'.store && s'.store[key] == Summaries(answer)
  {}

  /** Details are stored exactly when nothing more than the station is asked for. */
  lemma DetailReadIsStored(sql: Sql, s: State, id: Id, q: DetailQuery, getWorks: bool)
    ensures var (s', answer) := ReadDetail(sql, s, id, q, getWorks, true);
      var key := "station:detail:" + id;
      if AsksForMore(q) then s' == s
      else answer.Some? ==> key in s'.store && s'.store[key] == OneDetail(answer.value)
  {}

  /** Main result: after any serial run of reads, connector updates, expiries and failed cache calls that
      started from an empty cache, every read returns what the direct query would return then. */
  lemma EveryReadIsFresh(sql: Sql, isSpace: char -> bool, db: Database, events: seq<Event>, e: Event)
    requires db.Valid() && EventReadable(e) && (e.Nearby? || e.Search? || e.OneStation?)
    requires forall k :: 0 <= k < |events| ==> EventReadable(events[k])
    ensures var s := Run(sql, isSpace, State(db, map[]), events);
      Step(sql, isSpace, s, e).1 == Direct(sql, isSpace, s.db, e)
  {
    RunKeepsCoherence(sql, isSpace, State(db, map[]), events);
    StepKeepsCoherence(sql, isSpace, Run(sql, isSpace, State(db, map[]), events), e);
  }

  // ----- the services -----

  /** Prisma's tables, shared by the services. */
  class Tables {
    var stations: map<Id, StationRow>
    var connectors: seq<ConnectorRow>

    constructor (stations: map<Id, StationRow>, connectors: seq<ConnectorRow>)
      ensures this.stations == stations && this.connectors == connectors
    {
      this.stations, this.connectors := stations, connectors;
    }

    function Value(): Database
      reads this
    {
      Database(stations, connectors)
    }
  }

  class CacheService {
    var store: Store

    constructor ()
      ensures store == map[]
    {
      store := map[];
    }

    /** A failing write is logged and forgotten. */
    method SetJsonCache(key: string, value: Cached, works: bool)
      modifies this
      ensures store == Put(old(store), key, value, works)
    {
      if works {
        store := store[key := value];
      }
    }

    /** A failing read counts as a miss. */
    method GetJsonCache(key: string, works: bool) returns (value: Option<Cached>)
      ensures value == Lookup(store, key, works)
    {
      if !works || key !in store {
        return None;
      }
      return Some(store[key]);
    }

    method ScanKeys(prefix: string) returns (keys: set<string>)
      ensures keys == set k | k in store && prefix <= k
    {
      keys := set k | k in store && prefix <= k;
    }

    method InvalidateStation(stationId: Id)
      modifies this
      ensures store == Invalidated(old(store), stationId)
      ensures forall k :: k in store <==>
        && k in old(store) && k != "station:detail:" + stationId
        && !("station:nearby:" <= k) && !("station:search:" <= k)
      ensures forall k :: k in store ==> store[k] == old(store)[k]
    {
      store := store - {STATION_DETAIL_KEY_PREFIX + stationId};
      var nearbyKeys := ScanKeys(STATION_NEARBY_KEY_PREFIX);
      var searchKeys := ScanKeys(STATION_SEARCH_KEY_PREFIX);
      store := store - nearbyKeys;
      store := store - searchKeys;
    }
  }

  class ConnectorsService {
    const tables: Tables
    const cache: CacheService

    constructor (tables: Tables, cache: CacheService)
      ensures this.tables == tables && this.cache == cache
    {
      this.tables, this.cache := tables, cache;
    }

    method UpdateConnectorStatus(connectorId: Id, status: Status, at: int, now: int, setWorks: bool)
      returns (row: Option<ConnectorRow>)
      requires tables.Value().Valid()
      modifies tables, cache
      ensures (State(tables.Value(), cache.store), row)
           == UpdateConnector(old(State(tables.Value(), cache.store)), connectorId, status, at, now, setWorks)
    {
      var i := ConnectorIndex(tables.connectors, connectorId);
      if i == |tables.connectors| {
        return None;
      }
      var stationId := tables.connectors[i].stationId;
      tables.connectors := tables.connectors[i := tables.connectors[i].(status := status, lastStatusUpdate := at)];
      row := Some(tables.connectors[i]);
      CascadeStationAggregateStatus(stationId, now);
      cache.SetJsonCache(CONNECTOR_STATUS_KEY_PREFIX + connectorId, OneConnector(row.value), setWorks);
      cache.InvalidateStation(stationId);
    }

    method CascadeStationAggregateStatus(stationId: Id, now: int)
      requires stationId in tables.stations
      modifies tables`stations
      ensures tables.stations == old(tables.stations)[stationId := old(tables.stations)[stationId]
                .(status := Aggregate(StatusesOf(ConnectorsOf(tables.connectors, stationId))), updatedAt := now)]
    {
      var connectors := ConnectorsOf(tables.connectors, stationId);
      var aggregate := ComputeAggregateStationStatus(StatusesOf(connectors));
      var row := tables.stations[stationId].(status := aggregate, updatedAt := now);
      tables.stations := tables.stations[stationId := row];
    }
  }

  class StationsService {
    const sql: Sql
    const isSpace: char -> bool
    const tables: Tables
    const cache: CacheService

    constructor (sql: Sql, isSpace: char -> bool, tables: Tables, cache: CacheService)
      ensures this.sql == sql && this.isSpace == isSpace && this.tables == tables && this.cache == cache
    {
      this.sql, this.isSpace, this.tables, this.cache := sql, isSpace, tables, cache;
    }

    method FindNearbyStations(request: NearbyRequest, getWorks: bool, setWorks: bool) returns (stations: seq<Summary>)
      modifies cache
      ensures (State(tables.Value(), cache.store), stations)
           == ReadNearby(sql, old(State(tables.Value(), cache.store)), request, getWorks, setWorks)
    {
      var cacheKey := BuildNearbyCacheKey(request);
      var cached := cache.GetJsonCache(STATION_NEARBY_KEY_PREFIX + cacheKey, getWorks);
      if cached.Some? && cached.value.Summaries? {
        return cached.value.list;
      }
      stations := DirectNearby(sql, tables.Value(), request);
      cache.SetJsonCache(STATION_NEARBY_KEY_PREFIX + cacheKey, Summaries(stations), setWorks);
    }

    method SearchStations(request: SearchRequest, getWorks: bool, setWorks: bool) returns (stations: seq<Summary>)
      modifies cache
      ensures (State(tables.Value(), cache.store), stations)
           == ReadSearch(sql, isSpace, old(State(tables.Value(), cache.store)), request, getWorks, setWorks)
    {
      var query := NormalizeQuery(isSpace, request.query);
      if |query| == 0 {
        return [];
      }
      var cacheKey := SearchKey(request, query);
      var cached := cache.GetJsonCache(STATION_SEARCH_KEY_PREFIX + cacheKey, getWorks);
      if cached.Some? && cached.value.Summaries? {
        return cached.value.list;
      }
      stations := DirectSearch(sql, isSpace, tables.Value(), request);
      cache.SetJsonCache(STATION_SEARCH_KEY_PREFIX + cacheKey, Summaries(stations), setWorks);
    }

    method GetStationDetail(stationId: Id, query: DetailQuery, getWorks: bool, setWorks: bool)
      returns (detail: Option<Detail>)
      modifies cache
      ensures (State(tables.Value(), cache.store), detail)
           == ReadDetail(sql, old(State(tables.Value(), cache.store)), stationId, query, getWorks, setWorks)
    {
      var hasConnectorFilters := (query.connectorTypes.Some? && |query.connectorTypes.value| > 0)
        || query.minimumPowerKw.Some?;
      var hasLocationContext := query.latitude.Some? || query.longitude.Some?;
      var isCacheable := !hasConnectorFilters && !hasLocationContext;
      if isCacheable {
        var cached := cache.GetJsonCache(STATION_DETAIL_KEY_PREFIX + stationId, getWorks);
        if cached.Some? && cached.value.OneDetail? {
          return Some(cached.value.detail);
        }
      }
      detail := DirectDetail(sql, tables.Value(), stationId, query);
      if detail.Some? && isCacheable {
        cache.SetJsonCache(STATION_DETAIL_KEY_PREFIX + stationId, OneDetail(detail.value), setWorks);
      }
    }
  }
}
