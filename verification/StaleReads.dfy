/** What rounded cache keys cost: exactly when a read can be answered with what holds at another place. */
module StaleReads {
  import opened Text
  import opened StationStatuses
  import opened CacheKeys
  import opened StationCache

  // ----- databases that answer as the two queries are written -----

  /** ORDER BY score descending, distance ascending; the nearby query scores all alike. */
  predicate Precedes(a: Candidate, b: Candidate) {
    a.score > b.score || (a.score == b.score && a.distanceMeters <= b.distanceMeters)
  }

  predicate Listed(list: seq<Summary>, id: Id) {
    exists i :: 0 <= i < |list| && list[i].id == id
  }

  /** Every listed station is a candidate, with its state and distance. */
  predicate Truthful(list: seq<Summary>, candidates: map<Id, Candidate>) {
    forall i :: 0 <= i < |list| ==>
      && list[i].id in candidates && list[i].status == candidates[list[i].id].status
      && list[i].distanceMeters == candidates[list[i].id].distanceMeters
  }

  predicate Ordered(list: seq<Summary>, candidates: map<Id, Candidate>)
    requires Truthful(list, candidates)
  {
    forall i, j :: 0 <= i < j < |list| ==>
      list[i].id != list[j].id && Precedes(candidates[list[i].id], candidates[list[j].id])
  }

  /** None that is left out should precede one that is listed. */
  ghost predicate LeavesOutTheRest(list: seq<Summary>, candidates: map<Id, Candidate>)
    requires Truthful(list, candidates)
  {
    forall i, id :: 0 <= i < |list| && id in candidates && !Listed(list, id) ==>
      Precedes(candidates[list[i].id], candidates[id])
  }

  /** The list has as many candidates as the limit allows, each once, the first ones in order. */
  ghost predicate Ranks(list: seq<Summary>, candidates: map<Id, Candidate>, limit: nat) {
    && |list| == (if limit < |candidates| then limit else |candidates|)
    && Truthful(list, candidates) && Ordered(list, candidates) && LeavesOutTheRest(list, candidates)
  }

  ghost predicate Honest(sql: Sql) {
    && (forall candidates: map<Id, Candidate>, limit: nat ::
          Ranks(sql.nearest(candidates, limit), candidates, limit))
    && (forall query: string, candidates: map<Id, Candidate>, limit: nat ::
          Ranks(sql.similar(query, candidates, limit), candidates, limit))
  }

  ghost predicate ComesFirst(candidates: map<Id, Candidate>, id: Id) {
    id in candidates && forall other :: other in candidates ==> Precedes(candidates[id], candidates[other])
  }

  /** Some candidate precedes all. */
  lemma {:induction false} FirstExists(candidates: map<Id, Candidate>) returns (first: Id)
    requires candidates != map[]
    ensures ComesFirst(candidates, first)
    decreases |candidates|
  {
    var id :| id in candidates;
    var others := candidates - {id};
    assert others.Keys == candidates.Keys - {id};
    first := id;
    if others != map[] {
      assert |others.Keys| < |candidates.Keys|;
      var best := FirstExists(others);
      if !Precedes(candidates[id], candidates[best]) {
        first := best;
      }
    }
    forall other | other in candidates ensures Precedes(candidates[first], candidates[other]) {
      if other != id {
        assert other in others && others[other] == candidates[other];
      }
    }
  }

  /** An honest answer. */
  ghost function Ranking(candidates: map<Id, Candidate>, limit: nat): (list: seq<Summary>)
    ensures Ranks(list, candidates, limit)
    decreases limit
  {
    if limit == 0 || candidates == map[] then []
    else
      assert exists id :: ComesFirst(candidates, id) by {
        var first := FirstExists(candidates);
        assert ComesFirst(candidates, first);
      }
      var id :| ComesFirst(candidates, id);
      var rest := Ranking(candidates - {id}, limit - 1);
      var list := [Summary(id, candidates[id].status, candidates[id].distanceMeters, "")] + rest;
      RankingStep(candidates, limit, id, rest, list);
      list
  }

  /** `list` puts a candidate that precedes all before a ranking of the others. */
  ghost predicate PutsFirst(candidates: map<Id, Candidate>, id: Id, rest: seq<Summary>, list: seq<Summary>) {
    && ComesFirst(candidates, id)
    && Truthful(rest, candidates - {id})
    && list == [Summary(id, candidates[id].status, candidates[id].distanceMeters, "")] + rest
  }

  lemma FirstIsTruthful(candidates: map<Id, Candidate>, id: Id, rest: seq<Summary>, list: seq<Summary>)
    requires PutsFirst(candidates, id, rest, list)
    ensures Truthful(list, candidates)
  {
    forall i | 0 < i < |list| ensures list[i].id in candidates && list[i] == rest[i - 1] {
      assert rest[i - 1].id in candidates - {id};
    }
  }

  lemma FirstIsOrdered(candidates: map<Id, Candidate>, id: Id, rest: seq<Summary>, list: seq<Summary>)
    requires PutsFirst(candidates, id, rest, list) && Ordered(rest, candidates - {id}) && Truthful(list, candidates)
    ensures Ordered(list, candidates)
  {
    forall i, j | 0 <= i < j < |list|
      ensures list[i].id != list[j].id && Precedes(candidates[list[i].id], candidates[list[j].id])
    {
      assert list[j] == rest[j - 1] && rest[j - 1].id in candidates - {id};
      if i > 0 {
        assert list[i] == rest[i - 1] && rest[i - 1].id in candidates - {id};
      }
    }
  }

  lemma FirstLeavesOutTheRest(candidates: map<Id, Candidate>, id: Id, rest: seq<Summary>, list: seq<Summary>)
    requires PutsFirst(candidates, id, rest, list) && Truthful(list, candidates)
    requires LeavesOutTheRest(rest, candidates - {id})
    ensures LeavesOutTheRest(list, candidates)
  {
    forall i, other | 0 <= i < |list| && other in candidates && !Listed(list, other)
      ensures Precedes(candidates[list[i].id], candidates[other])
    {
      if i > 0 {
        NotListedInRest(list, rest, other);
        assert other in candidates - {id} && list[i] == rest[i - 1] && rest[i - 1].id in candidates - {id};
      }
    }
  }

  lemma NotListedInRest(list: seq<Summary>, rest: seq<Summary>, id: Id)
    requires list != [] && rest == list[1..] && !Listed(list, id)
    ensures list[0].id != id && !Listed(rest, id)
  {
    forall j | 0 <= j < |rest| ensures rest[j].id != id {
      assert list[j + 1] == rest[j];
    }
  }

  lemma RankingStep(candidates: map<Id, Candidate>, limit: nat, id: Id, rest: seq<Summary>, list: seq<Summary>)
    requires limit > 0 && PutsFirst(candidates, id, rest, list) && Ranks(rest, candidates - {id}, limit - 1)
    ensures Ranks(list, candidates, limit)
  {
    assert (candidates - {id}).Keys == candidates.Keys - {id};
    assert |(candidates - {id}).Keys| == |candidates.Keys| - 1;
    FirstIsTruthful(candidates, id, rest, list);
    FirstIsOrdered(candidates, id, rest, list);
    FirstLeavesOutTheRest(candidates, id, rest, list);
  }

  /** An honest database over given distances, in which every text matches every station. */
  ghost function HonestSql(distance: (Id, real, real) -> real): (sql: Sql)
    ensures Honest(sql) && sql.distance == distance
  {
    var nearest := (candidates: map<Id, Candidate>, limit: nat) => Ranking(candidates, limit);
    var similar := (query: string, candidates: map<Id, Candidate>, limit: nat) => Ranking(candidates, limit);
    Sql(distance, (query, id) => true, (query, id) => 0.0, nearest, similar,
        (id, row, status, connectors, place) => Detail(id, status, connectors, None, ""))
  }

  /** What an honest list of at most one candidate is. */
  lemma RankOne(list: seq<Summary>, candidates: map<Id, Candidate>, limit: nat, id: Id)
    requires Ranks(list, candidates, limit) && limit > 0 && candidates.Keys <= {id}
    ensures if id in candidates then
              |list| == 1 && list[0].id == id && list[0].distanceMeters == candidates[id].distanceMeters
            else list == []
  {
    if id in candidates {
      assert candidates.Keys == {id};
      assert |candidates.Keys| == 1;
    } else {
      assert candidates.Keys == {};
      assert |candidates.Keys| == 0;
    }
  }

  // ----- a database that a request's own filters let pass -----

  function FirstOr<T>(list: Option<seq<T>>, fallback: T): T {
    if OrEmpty(list) == [] then fallback else OrEmpty(list)[0]
  }

  /** One station with one connector that has what the request asks for. */
  function OneStationFor(id: Id, r: NearbyRequest): (db: Database)
    ensures db.Valid() && id in db.stations
  {
    var status := FirstOr(r.availabilityStatuses, AVAILABLE);
    var power := if r.minimumPowerKw.None? then 0.0 else DecimalValue(r.minimumPowerKw.value);
    Database(map[id := StationRow(FirstOr(r.operatorIds, ""), status, 0)],
             [ConnectorRow("", id, FirstOr(r.connectorTypes, CCS), power, status, 0)])
  }

  lemma OneStationIsEligible(id: Id, r: NearbyRequest)
    ensures Eligible(OneStationFor(id, r), r).Keys == {id}
  {
    var db := OneStationFor(id, r);
    var status := db.connectors[0].status;
    assert ConnectorsOf(db.connectors, id) == [db.connectors[0]];
    assert StatusesOf([db.connectors[0]]) == [status];
    SqlAgreesWithLoop([status]);
    assert AggregateOf(db, id) == status;
    assert ConnectorMatches(db.connectors[0], OrEmpty(r.connectorTypes), r.minimumPowerKw);
    assert PassesFilters(db, id, r);
  }

  // ----- nearby reads -----

  /** How a nearby query sees a station: at its distance, or not at all. */
  function Seen(distance: (Id, real, real) -> real, id: Id, r: NearbyRequest): Option<real> {
    var d := distance(id, r.latitude, r.longitude);
    if d <= RadiusOf(r) as real then Some(d) else None
  }

  /** Two places look alike to a query when every station that it could list is equally far from both. */
  ghost predicate LookAlike(distance: (Id, real, real) -> real, a: NearbyRequest, b: NearbyRequest) {
    forall id: Id :: Seen(distance, id, a) == Seen(distance, id, b)
  }

  lemma AlikePlacesAnswerAlike(sql: Sql, db: Database, a: NearbyRequest, b: NearbyRequest)
    requires SameNearbyQuery(a, b) && LookAlike(sql.distance, a, b)
    ensures DirectNearby(sql, db, a) == DirectNearby(sql, db, b)
  {
    SameQuerySameEligible(db, a, b);
    forall id: Id ensures Seen(sql.distance, id, a) == Seen(sql.distance, id, b) {}
    assert Around(sql, db, a).Keys == Around(sql, db, b).Keys by {
      forall id | id in Eligible(db, a)
        ensures id in Around(sql, db, a) <==> id in Around(sql, db, b)
      {
        assert Seen(sql.distance, id, a) == Seen(sql.distance, id, b);
      }
    }
    assert Around(sql, db, a) == Around(sql, db, b) by {
      forall id | id in Around(sql, db, a)
        ensures Around(sql, db, a)[id] == Around(sql, db, b)[id]
      {
        assert Seen(sql.distance, id, a) == Seen(sql.distance, id, b);
      }
    }
  }

  /** A station seen differently from the two places tells them apart over every honest database. */
  lemma OneStationTellsApart(sql: Sql, id: Id, a: NearbyRequest, b: NearbyRequest)
    requires Honest(sql) && SameNearbyQuery(a, b) && LimitOf(a) > 0
    requires Seen(sql.distance, id, a) != Seen(sql.distance, id, b)
    ensures DirectNearby(sql, OneStationFor(id, a), a) != DirectNearby(sql, OneStationFor(id, a), b)
  {
    var db := OneStationFor(id, a);
    OneStationIsEligible(id, a);
    SameQuerySameEligible(db, a, b);
    RankOne(DirectNearby(sql, db, a), Around(sql, db, a), LimitOf(a), id);
    RankOne(DirectNearby(sql, db, b), Around(sql, db, b), LimitOf(b), id);
  }

  /** The exact price of rounded keys: over given distances, requests that share a key have equal answers
      from every honest database exactly when their places look alike (or nothing at all is asked for). */
  lemma KeySharersAgreeExactlyWhen(distance: (Id, real, real) -> real, a: NearbyRequest, b: NearbyRequest)
    requires a.Valid() && b.Valid()
    ensures NearbyKey(a) == NearbyKey(b) ==>
      ((forall sql: Sql, db: Database | Honest(sql) && sql.distance == distance && db.Valid() ::
          DirectNearby(sql, db, a) == DirectNearby(sql, db, b))
       <==> LimitOf(a) == 0 || LookAlike(distance, a, b))
  {
    NearbyKeysEqualExactlyForSameQuery(a, b);
    if NearbyKey(a) == NearbyKey(b) {
      if LimitOf(a) == 0 || LookAlike(distance, a, b) {
        forall sql: Sql, db: Database | Honest(sql) && sql.distance == distance && db.Valid()
          ensures DirectNearby(sql, db, a) == DirectNearby(sql, db, b)
        {
          if LimitOf(a) == 0 {
            assert Ranks(DirectNearby(sql, db, a), Around(sql, db, a), 0);
            assert Ranks(DirectNearby(sql, db, b), Around(sql, db, b), 0);
          } else {
            AlikePlacesAnswerAlike(sql, db, a, b);
          }
        }
      } else {
        var id: Id :| Seen(distance, id, a) != Seen(distance, id, b);
        OneStationTellsApart(HonestSql(distance), id, a, b);
      }
    }
  }

  // ----- searches -----

  lemma HonestSearchTellsApart(isSpace: char -> bool, distance: (Id, real, real) -> real, id: Id,
                               a: SearchRequest, b: SearchRequest)
    requires NormalizeQuery(isSpace, a.query) == NormalizeQuery(isSpace, b.query) != ""
    requires OrDefault(a.limit, DEFAULT_SEARCH_LIMIT) == OrDefault(b.limit, DEFAULT_SEARCH_LIMIT) > 0
    requires distance(id, a.latitude, a.longitude) != distance(id, b.latitude, b.longitude)
    ensures var sql, db := HonestSql(distance), Database(map[id := StationRow("", OFFLINE, 0)], []);
      db.Valid() && DirectSearch(sql, isSpace, db, a) != DirectSearch(sql, isSpace, db, b)
  {
    var sql, db := HonestSql(distance), Database(map[id := StationRow("", OFFLINE, 0)], []);
    var query, limit := NormalizeQuery(isSpace, a.query), OrDefault(a.limit, DEFAULT_SEARCH_LIMIT);
    var atA := Matching(sql, db, query, a.latitude, a.longitude);
    var atB := Matching(sql, db, query, b.latitude, b.longitude);
    assert id in atA && id in atB;
    RankOne(sql.similar(query, atA, limit), atA, limit, id);
    RankOne(sql.similar(query, atB, limit), atB, limit, id);
  }

  /** Every station is equally far from the places of both searches. */
  ghost predicate EquallyFar(distance: (Id, real, real) -> real, a: SearchRequest, b: SearchRequest) {
    forall id: Id :: distance(id, a.latitude, a.longitude) == distance(id, b.latitude, b.longitude)
  }

  function SearchLimitOf(r: SearchRequest): nat {
    OrDefault(r.limit, DEFAULT_SEARCH_LIMIT)
  }

  lemma EquallyFarAnswersAlike(isSpace: char -> bool, sql: Sql, db: Database, a: SearchRequest, b: SearchRequest)
    requires Honest(sql) && NormalizeQuery(isSpace, a.query) == NormalizeQuery(isSpace, b.query)
    requires SearchLimitOf(a) == SearchLimitOf(b) && (SearchLimitOf(a) == 0 || EquallyFar(sql.distance, a, b))
    ensures DirectSearch(sql, isSpace, db, a) == DirectSearch(sql, isSpace, db, b)
  {
    var query := NormalizeQuery(isSpace, a.query);
    var atA := Matching(sql, db, query, a.latitude, a.longitude);
    var atB := Matching(sql, db, query, b.latitude, b.longitude);
    if SearchLimitOf(a) == 0 {
      assert Ranks(sql.similar(query, atA, 0), atA, 0) && Ranks(sql.similar(query, atB, 0), atB, 0);
    } else {
      assert atA == atB;
    }
  }

  /** Both searches have equal answers from every honest database over these distances. */
  ghost predicate SearchesAgree(isSpace: char -> bool, distance: (Id, real, real) -> real,
                                a: SearchRequest, b: SearchRequest)
  {
    forall sql: Sql, db: Database | Honest(sql) && sql.distance == distance && db.Valid() ::
      DirectSearch(sql, isSpace, db, a) == DirectSearch(sql, isSpace, db, b)
  }

  lemma EquallyFarSearchesAgree(isSpace: char -> bool, distance: (Id, real, real) -> real,
                                a: SearchRequest, b: SearchRequest)
    requires NormalizeQuery(isSpace, a.query) == NormalizeQuery(isSpace, b.query)
    requires SearchLimitOf(a) == SearchLimitOf(b) && (SearchLimitOf(a) == 0 || EquallyFar(distance, a, b))
    ensures SearchesAgree(isSpace, distance, a, b)
  {
    forall sql: Sql, db: Database | Honest(sql) && sql.distance == distance && db.Valid()
      ensures DirectSearch(sql, isSpace, db, a) == DirectSearch(sql, isSpace, db, b)
    {
      EquallyFarAnswersAlike(isSpace, sql, db, a, b);
    }
  }

  lemma AgreeingSearchesAreEquallyFar(isSpace: char -> bool, distance: (Id, real, real) -> real,
                                      a: SearchRequest, b: SearchRequest)
    requires NormalizeQuery(isSpace, a.query) == NormalizeQuery(isSpace, b.query) != ""
    requires SearchLimitOf(a) == SearchLimitOf(b) > 0 && SearchesAgree(isSpace, distance, a, b)
    ensures EquallyFar(distance, a, b)
  {
    forall id: Id ensures distance(id, a.latitude, a.longitude) == distance(id, b.latitude, b.longitude) {
      if distance(id, a.latitude, a.longitude) != distance(id, b.latitude, b.longitude) {
        HonestSearchTellsApart(isSpace, distance, id, a, b);
      }
    }
  }

  /** The same price for searches, which have no radius: every station must be equally far from both places. */
  lemma SearchKeySharersAgreeExactlyWhen(isSpace: char -> bool, distance: (Id, real, real) -> real,
                                         a: SearchRequest, b: SearchRequest)
    requires NormalizeQuery(isSpace, a.query) != ""
    ensures SearchKey(a, NormalizeQuery(isSpace, a.query)) == SearchKey(b, NormalizeQuery(isSpace, b.query)) ==>
      (SearchesAgree(isSpace, distance, a, b) <==> SearchLimitOf(a) == 0 || EquallyFar(distance, a, b))
  {
    var p, q := NormalizeQuery(isSpace, a.query), NormalizeQuery(isSpace, b.query);
    SearchKeysEqualExactlyForSameQuery(a, p, b, q);
    if SearchKey(a, p) == SearchKey(b, q) {
      if SearchLimitOf(a) == 0 || EquallyFar(distance, a, b) {
        EquallyFarSearchesAgree(isSpace, distance, a, b);
      } else if SearchesAgree(isSpace, distance, a, b) {
        AgreeingSearchesAreEquallyFar(isSpace, distance, a, b);
      }
    }
  }

  // ----- two reads in a row -----

  /** The answer to b right after a was read into an empty cache. */
  function SecondRead(sql: Sql, isSpace: char -> bool, db: Database, a: NearbyRequest, b: NearbyRequest): Answer
    requires db.Valid()
  {
    Step(sql, isSpace, Run(sql, isSpace, State(db, map[]), [Nearby(a, true, true)]), Nearby(b, true, true)).1
  }

  lemma SecondReadAnswersFirst(sql: Sql, isSpace: char -> bool, db: Database, a: NearbyRequest, b: NearbyRequest)
    requires db.Valid() && NearbyKey(a) == NearbyKey(b)
    ensures SecondRead(sql, isSpace, db, a, b) == Stations(DirectNearby(sql, db, a))
  {
    var s := State(db, map[]);
    assert [Nearby(a, true, true)][..0] == [];
    assert Run(sql, isSpace, s, [Nearby(a, true, true)]) == Step(sql, isSpace, s, Nearby(a, true, true)).0;
  }

  /** Over given distances, the second of two reads that share a key is fresh over every honest database
      exactly when the places look alike (or nothing at all is asked for). */
  lemma SecondReadIsFreshExactlyWhen(isSpace: char -> bool, distance: (Id, real, real) -> real,
                                     a: NearbyRequest, b: NearbyRequest)
    requires a.Valid() && b.Valid() && SameNearbyQuery(a, b)
    ensures (forall sql: Sql, db: Database | Honest(sql) && sql.distance == distance && db.Valid() ::
               SecondRead(sql, isSpace, db, a, b) == Stations(DirectNearby(sql, db, b)))
       <==> LimitOf(a) == 0 || LookAlike(distance, a, b)
  {
    NearbyKeysEqualExactlyForSameQuery(a, b);
    KeySharersAgreeExactlyWhen(distance, a, b);
    forall sql: Sql, db: Database | Honest(sql) && sql.distance == distance && db.Valid()
      ensures SecondRead(sql, isSpace, db, a, b) == Stations(DirectNearby(sql, db, a))
    {
      SecondReadAnswersFirst(sql, isSpace, db, a, b);
    }
  }

  // ----- a stale read -----

  /** Metres along a meridian to a station at 40 degrees north. */
  function Meridian(id: Id, latitude: real, longitude: real): real {
    111195.0 * (if latitude < 40.0 then 40.0 - latitude else latitude - 40.0)
  }

  /** Two requests a ten-millionth of a degree apart, and the one station: the second is told the distance of
      the first. */
  lemma FinerReadIsStale(isSpace: char -> bool, sql: Sql)
    ensures var a := NearbyRequest(40.0, 44.0, None, None, None, None, None, None);
      var b, db := a.(latitude := 40.0000001), OneStationFor("station", a);
      Honest(sql) && sql.distance == Meridian ==>
        && |DirectNearby(sql, db, b)| == 1 && DirectNearby(sql, db, b)[0].distanceMeters == 0.0111195
        && SecondRead(sql, isSpace, db, a, b).Stations? && |SecondRead(sql, isSpace, db, a, b).list| == 1
        && SecondRead(sql, isSpace, db, a, b).list[0].distanceMeters == 0.0
  {
    if Honest(sql) && sql.distance == Meridian {
      var a := NearbyRequest(40.0, 44.0, None, None, None, None, None, None);
      var b, db := a.(latitude := 40.0000001), OneStationFor("station", a);
      assert Micro(40.0) == Micro(40.0000001) == (false, 40000000);
      NearbyKeysEqualExactlyForSameQuery(a, b);
      SecondReadAnswersFirst(sql, isSpace, db, a, b);
      OneStationIsEligible("station", a);
      SameQuerySameEligible(db, a, b);
      RankOne(DirectNearby(sql, db, a), Around(sql, db, a), LimitOf(a), "station");
      RankOne(DirectNearby(sql, db, b), Around(sql, db, b), LimitOf(b), "station");
    }
  }
}
