/** What the station queries answer, in terms of the columns of the station and connector rows. */
module StationAnswers {
  import opened Text
  import opened StationStatuses
  import opened CacheKeys
  import opened StationCache
  import opened StaleReads

  // ----- filters -----

  /** Moves the decimal point k places to the right. */
  function PointMoved(x: real, k: nat): real {
    if k == 0 then x else 10.0 * PointMoved(x, k - 1)
  }

  lemma {:induction false} PointMovedFirst(x: real, k: nat)
    ensures PointMoved(10.0 * x, k) == 10.0 * PointMoved(x, k)
  {
    if k > 0 {
      PointMovedFirst(x, k - 1);
    }
  }

  lemma {:induction false} PointMovedSum(x: real, y: real, k: nat)
    ensures PointMoved(x + y, k) == PointMoved(x, k) + PointMoved(y, k)
  {
    if k > 0 {
      PointMovedSum(x, y, k - 1);
    }
  }

  lemma {:induction false} ValueFromLeft(digits: string)
    requires AllDigits(digits) && digits != ""
    ensures ValueOf(digits) as real
         == PointMoved((digits[0] as int - '0' as int) as real, |digits| - 1) + ValueOf(digits[1..]) as real
  {
    var last := |digits| - 1;
    if last > 0 {
      ValueFromLeft(digits[..last]);
      assert digits[..last][1..] == digits[1..][..last - 1];
    }
  }

  /** What digits behind the point say. */
  lemma {:induction false} FractionSaysIt(digits: string)
    requires AllDigits(digits)
    ensures PointMoved(FractionValue(digits), |digits|) == ValueOf(digits) as real
  {
    if digits != "" {
      var first, rest := (digits[0] as int - '0' as int) as real, digits[1..];
      FractionSaysIt(rest);
      ValueFromLeft(digits);
      PointMovedSum(first, FractionValue(rest), |rest|);
      PointMovedFirst(FractionValue(digits), |rest|);
      assert 10.0 * FractionValue(digits) == first + FractionValue(rest);
    }
  }

  /** The minimum power is the number that is printed: what its digits before the point say, and what those
      behind it say with the point moved back. */
  lemma PowerSaysIt(d: Decimal)
    requires d.Valid()
    ensures d.Print() == NatText(d.whole) + (if d.fraction == "" then "" else "." + d.fraction)
    ensures var behind := DecimalValue(d) - ValueOf(NatText(d.whole)) as real;
      PointMoved(behind, |d.fraction|) == ValueOf(d.fraction) as real
  {
    NatTextSaysIt(d.whole);
    FractionSaysIt(d.fraction);
    assert DecimalValue(d) - d.whole as real == FractionValue(d.fraction);
  }

  /** A connector of one of the types, if any are given, with at least the minimum power, if one is given. */
  predicate Suits(c: ConnectorRow, types: Option<seq<ConnectorType>>, minimum: Option<Decimal>) {
    && (types == None || types == Some([]) || c.connectorType in types.value)
    && (minimum == None || DecimalValue(minimum.value) <= c.powerKw)
  }

  /** Some connector of the station suits; a request that asks for nothing of connectors needs none. */
  predicate HasSuitableConnector(db: Database, id: Id, types: Option<seq<ConnectorType>>, minimum: Option<Decimal>) {
    || ((types == None || types == Some([])) && minimum == None)
    || exists i | 0 <= i < |db.connectors| && db.connectors[i].stationId == id ::
         Suits(db.connectors[i], types, minimum)
  }

  // ----- the state of a station -----

  predicate HasConnectorIn(db: Database, id: Id, status: Status) {
    exists i :: 0 <= i < |db.connectors| && db.connectors[i].stationId == id && db.connectors[i].status == status
  }

  /** The best state among the station's connectors, and OFFLINE without any. */
  function StateOf(db: Database, id: Id): Status {
    if HasConnectorIn(db, id, AVAILABLE) then AVAILABLE
    else if HasConnectorIn(db, id, OCCUPIED) then OCCUPIED
    else if HasConnectorIn(db, id, MAINTENANCE) then MAINTENANCE
    else OFFLINE
  }

  function IsOf(id: Id): ConnectorRow -> bool {
    (c: ConnectorRow) => c.stationId == id
  }

  lemma {:induction false} OwnConnectorsAreFiltered(connectors: seq<ConnectorRow>, id: Id)
    ensures ConnectorsOf(connectors, id) == Filter(connectors, IsOf(id))
  {
    if connectors != [] {
      OwnConnectorsAreFiltered(connectors[1..], id);
    }
  }

  lemma {:induction false} StatusesOfRows(connectors: seq<ConnectorRow>, status: Status)
    ensures status in StatusesOf(connectors) <==> exists c :: c in connectors && c.status == status
  {
    if connectors != [] {
      StatusesOfRows(connectors[1..], status);
      assert connectors == [connectors[0]] + connectors[1..];
      if status in StatusesOf(connectors[1..]) {
        var c :| c in connectors[1..] && c.status == status;
        assert c in connectors;
      }
    }
  }

  lemma HasConnectorInRows(db: Database, id: Id, status: Status)
    ensures status in StatusesOf(ConnectorsOf(db.connectors, id)) <==> HasConnectorIn(db, id, status)
  {
    OwnConnectorsAreFiltered(db.connectors, id);
    FilterMembers(db.connectors, IsOf(id));
    StatusesOfRows(ConnectorsOf(db.connectors, id), status);
    if HasConnectorIn(db, id, status) {
      var i :| 0 <= i < |db.connectors| && db.connectors[i].stationId == id && db.connectors[i].status == status;
      assert db.connectors[i] in db.connectors;
    }
  }

  lemma AggregateIsStateOf(db: Database, id: Id)
    ensures AggregateOf(db, id) == StateOf(db, id)
  {
    SqlAgreesWithLoop(StatusesOf(ConnectorsOf(db.connectors, id)));
    HasConnectorInRows(db, id, AVAILABLE);
    HasConnectorInRows(db, id, OCCUPIED);
    HasConnectorInRows(db, id, MAINTENANCE);
  }

  // ----- nearby -----

  function RadiusFor(r: NearbyRequest): nat {
    if r.radiusMeters.Some? then r.radiusMeters.value else 5000
  }

  function LimitFor(r: NearbyRequest): nat {
    if r.limit.Some? then r.limit.value else 50
  }

  /** A station that a nearby request asks for. */
  predicate AskedFor(sql: Sql, db: Database, id: Id, r: NearbyRequest) {
    && id in db.stations
    && sql.distance(id, r.latitude, r.longitude) <= RadiusFor(r) as real
    && HasSuitableConnector(db, id, r.connectorTypes, r.minimumPowerKw)
    && (r.availabilityStatuses == None || r.availabilityStatuses == Some([])
        || StateOf(db, id) in r.availabilityStatuses.value)
    && (r.operatorIds == None || r.operatorIds == Some([]) || db.stations[id].operatorId in r.operatorIds.value)
  }

  lemma ConnectorFilterMeaning(db: Database, id: Id, r: NearbyRequest)
    ensures PassesConnectorFilter(db, id, OrEmpty(r.connectorTypes), r.minimumPowerKw)
       <==> HasSuitableConnector(db, id, r.connectorTypes, r.minimumPowerKw)
  {
    assert forall c: ConnectorRow ::
      ConnectorMatches(c, OrEmpty(r.connectorTypes), r.minimumPowerKw) == Suits(c, r.connectorTypes, r.minimumPowerKw);
  }

  lemma AroundIsAskedFor(sql: Sql, db: Database, id: Id, r: NearbyRequest)
    ensures id in Around(sql, db, r) <==> AskedFor(sql, db, id, r)
    ensures id in Around(sql, db, r) ==>
      Around(sql, db, r)[id] == Candidate(StateOf(db, id), sql.distance(id, r.latitude, r.longitude), 0.0)
  {
    ConnectorFilterMeaning(db, id, r);
    AggregateIsStateOf(db, id);
  }

  /** Main result: what an honest nearby answer lists. Each entry is a station that is asked for, with its state
      and distance, nearest first and none twice; there are at most as many as the limit allows, and when there
      are fewer, every station that is asked for is listed. */
  lemma NearbyAnswers(sql: Sql, db: Database, r: NearbyRequest)
    requires Honest(sql)
    ensures var list := DirectNearby(sql, db, r);
      && |list| <= LimitFor(r)
      && (forall i :: 0 <= i < |list| ==>
            && AskedFor(sql, db, list[i].id, r) && list[i].status == StateOf(db, list[i].id)
            && list[i].distanceMeters == sql.distance(list[i].id, r.latitude, r.longitude))
      && (forall i, j :: 0 <= i < j < |list| ==>
            list[i].id != list[j].id && list[i].distanceMeters <= list[j].distanceMeters)
      && (forall id: Id, i :: AskedFor(sql, db, id, r) && !Listed(list, id) && 0 <= i < |list| ==>
            list[i].distanceMeters <= sql.distance(id, r.latitude, r.longitude))
      && (|list| < LimitFor(r) ==> forall id: Id :: AskedFor(sql, db, id, r) ==> Listed(list, id))
  {
    var list, around := DirectNearby(sql, db, r), Around(sql, db, r);
    assert Ranks(list, around, LimitOf(r)) && LimitOf(r) == LimitFor(r);
    forall id: Id
      ensures id in around <==> AskedFor(sql, db, id, r)
      ensures id in around ==> around[id] == Candidate(StateOf(db, id), sql.distance(id, r.latitude, r.longitude), 0.0)
    {
      AroundIsAskedFor(sql, db, id, r);
    }
    if |list| < LimitFor(r) {
      AllListed(list, around, LimitFor(r));
    }
  }

  lemma {:induction false} DistinctIds(list: seq<Summary>, candidates: map<Id, Candidate>) returns (ids: set<Id>)
    requires Truthful(list, candidates) && Ordered(list, candidates)
    ensures |ids| == |list| && ids <= candidates.Keys && forall id :: id in ids <==> Listed(list, id)
  {
    ids := {};
    if list != [] {
      var front, last := list[..|list| - 1], list[|list| - 1];
      ids := DistinctIds(front, candidates);
      assert last.id !in ids;
      forall id ensures id in ids + {last.id} <==> Listed(list, id) {
        if Listed(front, id) {
          var i :| 0 <= i < |front| && front[i].id == id;
          assert list[i].id == id;
        }
        if Listed(list, id) && id != last.id {
          var i :| 0 <= i < |list| && list[i].id == id;
          assert front[i].id == id;
        }
        assert list[|list| - 1].id == last.id;
      }
      ids := ids + {last.id};
    }
  }

  lemma AllListed(list: seq<Summary>, candidates: map<Id, Candidate>, limit: nat)
    requires Ranks(list, candidates, limit) && |list| < limit
    ensures forall id :: id in candidates ==> Listed(list, id)
  {
    var ids := DistinctIds(list, candidates);
    assert |ids| == |candidates.Keys|;
    SubsetOfSameSize(ids, candidates.Keys);
  }

  lemma SubsetOfSameSize<T>(a: set<T>, b: set<T>)
    requires a <= b && |a| == |b|
    ensures a == b
  {
    assert |b - a| == |b| - |a|;
  }

  // ----- search -----

  /** Main result: what an honest search answers: stations that match the text, best match first and nearest
      first among equals, and all of them when there are fewer than the limit. */
  lemma SearchAnswers(sql: Sql, isSpace: char -> bool, db: Database, r: SearchRequest)
    requires Honest(sql) && NormalizeQuery(isSpace, r.query) != ""
    ensures var list, query := DirectSearch(sql, isSpace, db, r), NormalizeQuery(isSpace, r.query);
      var limit := if r.limit.Some? then r.limit.value else 20;
      && |list| <= limit
      && (forall i :: 0 <= i < |list| ==>
            && list[i].id in db.stations && sql.matches(query, list[i].id) && list[i].status == StateOf(db, list[i].id)
            && list[i].distanceMeters == sql.distance(list[i].id, r.latitude, r.longitude))
      && (forall i, j :: 0 <= i < j < |list| ==>
            && list[i].id != list[j].id
            && (sql.score(query, list[j].id) < sql.score(query, list[i].id)
                || (sql.score(query, list[j].id) == sql.score(query, list[i].id)
                    && list[i].distanceMeters <= list[j].distanceMeters)))
      && (|list| < limit ==> forall id: Id :: id in db.stations && sql.matches(query, id) ==> Listed(list, id))
  {
    var query := NormalizeQuery(isSpace, r.query);
    var limit := if r.limit.Some? then r.limit.value else 20;
    var list, matching := DirectSearch(sql, isSpace, db, r), Matching(sql, db, query, r.latitude, r.longitude);
    assert Ranks(list, matching, limit);
    forall id: Id | id in db.stations ensures AggregateOf(db, id) == StateOf(db, id) {
      AggregateIsStateOf(db, id);
    }
    if |list| < limit {
      AllListed(list, matching, limit);
    }
  }

  // ----- detail -----

  function SuitsBy(types: Option<seq<ConnectorType>>, minimum: Option<Decimal>): ConnectorRow -> bool {
    (c: ConnectorRow) => Suits(c, types, minimum)
  }

  /** The connectors that a detail shows. */
  function IsShown(id: Id, q: DetailQuery): ConnectorRow -> bool {
    (c: ConnectorRow) => c.stationId == id && Suits(c, q.connectorTypes, q.minimumPowerKw)
  }

  lemma {:induction false} ShownConnectorsAreFiltered(connectors: seq<ConnectorRow>, types: Option<seq<ConnectorType>>,
                                                      minimum: Option<Decimal>)
    ensures FilterConnectors(connectors, OrEmpty(types), minimum) == Filter(connectors, SuitsBy(types, minimum))
  {
    if connectors != [] {
      ShownConnectorsAreFiltered(connectors[1..], types, minimum);
    }
  }

  /** Main result: a detail is assembled from the station's row, its state, those of its connectors that suit, in
      their order, and the place only when both coordinates are given; an unknown station has none. */
  lemma DetailAnswers(sql: Sql, db: Database, id: Id, q: DetailQuery)
    ensures DirectDetail(sql, db, id, q).Some? <==> id in db.stations
    ensures id in db.stations ==>
      var place := match (q.latitude, q.longitude)
                   case (Some(latitude), Some(longitude)) => Some((latitude, longitude))
                   case _ => None;
      DirectDetail(sql, db, id, q).value
      == sql.assemble(id, db.stations[id], StateOf(db, id), Filter(db.connectors, IsShown(id, q)), place)
  {
    if id in db.stations {
      AggregateIsStateOf(db, id);
      OwnConnectorsAreFiltered(db.connectors, id);
      ShownConnectorsAreFiltered(ConnectorsOf(db.connectors, id), q.connectorTypes, q.minimumPowerKw);
      FilterTwice(db.connectors, IsOf(id), SuitsBy(q.connectorTypes, q.minimumPowerKw), IsShown(id, q));
    }
  }
}
